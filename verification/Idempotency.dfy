/** `claimstone/control.py`, `Idempotency` and the begin/finish protocol around a handler. Every
    method runs under one lock, so a run of the server is a sequence of begin and finish steps of
    threads that interleave freely. Clock readings are arguments. */
module Idempotency {
  import opened Seqs

  type Key = (string, string)  // operator id, Idempotency-Key
  type Fingerprint = string
  datatype Answer = Answer(payload: string, status: int)

  /** `result` is absent while the handler is still running. */
  datatype Entry = Entry(fingerprint: Fingerprint, at: real, result: Option<Answer>)
  datatype Slot = Slot(key: Key, entry: Entry)

  /** A dictionary in insertion order; overwriting a key keeps its place. */
  type Table = seq<Slot>

  datatype Outcome = Replay(answer: Answer) | Conflict | InProgress | Run

  ghost predicate DistinctKeys(t: Table) {
    forall i, j :: 0 <= i < j < |t| ==> t[i].key != t[j].key
  }

  function Find(t: Table, key: Key): Option<Entry> {
    if t == [] then None else if t[0].key == key then Some(t[0].entry) else Find(t[1..], key)
  }

  function Remove(t: Table, key: Key): Table {
    if t == [] then [] else (if t[0].key == key then [] else [t[0]]) + Remove(t[1..], key)
  }

  function Put(t: Table, key: Key, entry: Entry): Table {
    if t == [] then [Slot(key, entry)]
    else if t[0].key == key then [Slot(key, entry)] + t[1..]
    else [t[0]] + Put(t[1..], key, entry)
  }

  // ---------- what one locked step does ----------

  predicate Expired(e: Entry, now: real, ttl: real) { e.at + ttl <= now }

  function AfterExpiry(t: Table, now: real, ttl: real): Table {
    if t == [] then []
    else AfterExpiry(t[..|t| - 1], now, ttl)
         + (if Expired(t[|t| - 1].entry, now, ttl) then [] else [t[|t| - 1]])
  }

  /** Oldest first, until one more entry fits. */
  function AfterEviction(t: Table, limit: nat): Table
    requires limit > 0
  {
    if |t| >= limit then t[|t| - limit + 1..] else t
  }

  /** What this begin leaves of the table: one that starts no handler only expires entries, one
      that starts a handler also evicts the oldest. */
  function Survivors(t: Table, key: Key, now: real, ttl: real, limit: nat): Table
    requires limit > 0
  {
    var kept := AfterExpiry(t, now, ttl);
    if Find(kept, key).Some? then kept else AfterEviction(kept, limit)
  }

  function Verdict(found: Option<Entry>, fingerprint: Fingerprint): Outcome {
    if found.None? then Run
    else if found.value.fingerprint != fingerprint then Conflict
    else if found.value.result.None? then InProgress
    else Replay(found.value.result.value)
  }

  function BeginOutcome(t: Table, key: Key, fingerprint: Fingerprint, now: real, ttl: real): Outcome {
    Verdict(Find(AfterExpiry(t, now, ttl), key), fingerprint)
  }

  function BeginTable(t: Table, key: Key, fingerprint: Fingerprint, now: real, ttl: real, limit: nat): Table
    requires limit > 0
  {
    var kept := Survivors(t, key, now, ttl, limit);
    if Find(kept, key).Some? then kept else kept + [Slot(key, Entry(fingerprint, now, None))]
  }

  function FinishTable(t: Table, key: Key, result: Option<Answer>): Table {
    var found := Find(t, key);
    if found.None? then t
    else if result.None? then Remove(t, key)
    else Put(t, key, found.value.(result := result))
  }

  // ---------- the class ----------

  class Idempotency {
    const ttl: real
    const limit: nat
    var held: Table

    ghost predicate Valid() reads this {
      limit > 0 && |held| <= limit && DistinctKeys(held)
    }

    constructor (ttl: real, limit: nat)
      requires limit > 0
      ensures Valid() && this.ttl == ttl && this.limit == limit && held == []
    {
      this.ttl, this.limit, held := ttl, limit, [];
    }

    method Expire(now: real)
      requires Valid()
      modifies this
      ensures held == AfterExpiry(old(held), now, ttl) && Valid()
    {
      var before := held;
      for i := 0 to |before|
        invariant held == AfterExpiry(before[..i], now, ttl) + before[i..]
      {
        ExpireOne(before, i, now, ttl);
        if Expired(before[i].entry, now, ttl) {
          held := Remove(held, before[i].key);
        }
      }
      assert before[..|before|] == before;
      ExpiryKeeps(before, now, ttl);
    }

    method Begin(operator: string, key: string, fingerprint: Fingerprint, now: real) returns (outcome: Outcome)
      requires Valid()
      modifies this
      ensures Valid()
      ensures outcome == BeginOutcome(old(held), (operator, key), fingerprint, now, ttl)
      ensures held == BeginTable(old(held), (operator, key), fingerprint, now, ttl, limit)
    {
      Expire(now);
      var found := Find(held, (operator, key));
      if found.Some? {
        if found.value.fingerprint != fingerprint {
          return Conflict;
        }
        if found.value.result.None? {
          return InProgress;
        }
        return Replay(found.value.result.value);
      }
      ghost var kept := held;
      ghost var n := 0;
      while |held| >= limit
        invariant n <= |kept| && held == kept[n..] && (n > 0 ==> |kept| - n + 1 >= limit)
        decreases |held|
      {
        RemoveOne([], held[0], held[1..]);
        assert held == [] + [held[0]] + held[1..];
        held := Remove(held, held[0].key);
        n := n + 1;
      }
      assert held == AfterEviction(kept, limit);
      FindSuffix(kept, n, (operator, key));
      FindNone(held, (operator, key));
      held := held + [Slot((operator, key), Entry(fingerprint, now, None))];
      return Run;
    }

    method Finish(operator: string, key: string, result: Option<Answer>)
      requires Valid()
      modifies this
      ensures Valid() && held == FinishTable(old(held), (operator, key), result)
    {
      var found := Find(held, (operator, key));
      if found.None? {
        return;
      }
      if result.None? {
        RemoveKeeps(held, (operator, key));
        held := Remove(held, (operator, key));
      } else {
        PutKeeps(held, (operator, key), found.value.(result := result));
        held := Put(held, (operator, key), found.value.(result := result));
      }
    }
  }

  // ---------- dictionary facts ----------

  lemma {:induction false} FindNone(t: Table, key: Key)
    ensures Find(t, key).None? <==> forall i :: 0 <= i < |t| ==> t[i].key != key
  {
    if t != [] { FindNone(t[1..], key); }
  }

  lemma {:induction false} FindAt(t: Table, i: nat)
    requires DistinctKeys(t) && i < |t|
    ensures Find(t, t[i].key) == Some(t[i].entry)
  {
    if i > 0 { FindAt(t[1..], i - 1); }
  }

  lemma {:induction false} FindWhere(t: Table, key: Key) returns (i: nat)
    requires Find(t, key).Some?
    ensures i < |t| && t[i] == Slot(key, Find(t, key).value)
  {
    if t[0].key == key { i := 0; } else { i := FindWhere(t[1..], key); i := i + 1; }
  }

  lemma FindSuffix(t: Table, n: nat, key: Key)
    requires DistinctKeys(t) && n <= |t|
    ensures Find(t[n..], key).Some? ==> Find(t[n..], key) == Find(t, key)
    ensures DistinctKeys(t[n..])
  {
    if Find(t[n..], key).Some? {
      var i := FindWhere(t[n..], key);
      assert t[n..][i] == t[n + i];
      FindAt(t, n + i);
    }
  }

  lemma {:induction false} ExpiryKeeps(t: Table, now: real, ttl: real)
    ensures var kept := AfterExpiry(t, now, ttl);
      && |kept| <= |t| && (DistinctKeys(t) ==> DistinctKeys(kept))
      && (forall s :: s in kept <==> s in t && !Expired(s.entry, now, ttl))
  {
    if t != [] { ExpiryKeeps(t[..|t| - 1], now, ttl); }
  }

  lemma ExpireOne(t: Table, i: nat, now: real, ttl: real)
    requires DistinctKeys(t) && i < |t|
    ensures var held := AfterExpiry(t[..i], now, ttl) + t[i..];
      (if Expired(t[i].entry, now, ttl) then Remove(held, t[i].key) else held)
      == AfterExpiry(t[..i + 1], now, ttl) + t[i + 1..]
  {
    var kept := AfterExpiry(t[..i], now, ttl);
    ExpiryKeeps(t[..i], now, ttl);
    assert t[..i + 1][..i] == t[..i];
    assert kept + t[i..] == kept + [t[i]] + t[i + 1..];
    if Expired(t[i].entry, now, ttl) {
      RemoveOne(kept, t[i], t[i + 1..]);
    }
  }

  lemma {:induction false} RemoveKeeps(t: Table, key: Key)
    ensures forall s :: s in Remove(t, key) <==> s in t && s.key != key
    ensures |Remove(t, key)| <= |t| && (DistinctKeys(t) ==> DistinctKeys(Remove(t, key)))
  {
    if t != [] {
      RemoveKeeps(t[1..], key);
      var rest := Remove(t[1..], key);
      assert DistinctKeys(t) ==> DistinctKeys(t[1..]) && forall s :: s in rest ==> s.key != t[0].key;
    }
  }

  lemma {:induction false} RemoveOne(a: Table, slot: Slot, b: Table)
    requires forall s :: s in a + b ==> s.key != slot.key
    ensures Remove(a + [slot] + b, slot.key) == a + b
  {
    if a == [] {
      RemoveAbsent(b, slot.key);
      assert ([] + [slot] + b)[1..] == b;
    } else {
      assert (a + [slot] + b)[1..] == a[1..] + [slot] + b;
      assert a[0] in a + b && forall s :: s in a[1..] + b ==> s in a + b;
      RemoveOne(a[1..], slot, b);
      assert a + b == [a[0]] + (a[1..] + b);
    }
  }

  lemma {:induction false} RemoveAbsent(t: Table, key: Key)
    requires forall s :: s in t ==> s.key != key
    ensures Remove(t, key) == t
  {
    if t != [] {
      assert t[0] in t && forall s :: s in t[1..] ==> s in t;
      RemoveAbsent(t[1..], key);
    }
  }

  lemma {:induction false} PutKeeps(t: Table, key: Key, entry: Entry)
    requires Find(t, key).Some?
    ensures |Put(t, key, entry)| == |t|
    ensures forall i :: 0 <= i < |t| ==> Put(t, key, entry)[i].key == t[i].key
    ensures DistinctKeys(t) ==> forall i :: 0 <= i < |t| && t[i].key != key ==> Put(t, key, entry)[i] == t[i]
    ensures Find(Put(t, key, entry), key) == Some(entry)
  {
    if t[0].key != key {
      PutKeeps(t[1..], key, entry);
      assert DistinctKeys(t) ==> DistinctKeys(t[1..]);
    }
  }
}
