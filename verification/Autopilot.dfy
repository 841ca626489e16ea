/** `claimstone/autopilot.py`: standing permission for local model calls, with the part of
    `claimstone/operations.py` that spends it. */
module Autopilot {
  import opened Seqs

  /** A mandate is its own identity: the ledger names it by the digest of these terms. Version 2
      covers one flow, version 3 the child flows of a schedule. */
  datatype Mandate = Mandate(version: nat, flows: seq<string>, cap: nat, createdNs: int, rest: string)

  datatype Event = Enabled(mandate: Mandate) | Disabled(mandate: Mandate)

  /** A frozen drain plan, named by its digest: `owner` is the mandate whose run it belongs to, `calls`
      what it may ask, `inputs` the digest of the requests and of everything else it froze. */
  datatype Drain = Drain(flow: string, stage: string, inputs: string, calls: seq<string>, owner: Option<Mandate>)

  datatype Phase = Planned | Authorized(under: Option<Mandate>) | Failed(under: Option<Mandate>)

  /** One operation: its plan and where it stands. A failed operation keeps its authorization. */
  datatype Op = Op(plan: Drain, phase: Phase)

  // ---------- the mandate ledger ----------

  /** Whether each mandate is still enabled, or a ledger nobody may read on. */
  function Fold(held: map<Mandate, bool>, e: Event): Option<map<Mandate, bool>> {
    match e
    case Enabled(m) => if m in held then None else Some(held[m := true])
    case Disabled(m) => if m !in held || !held[m] then None else Some(held[m := false])
  }

  function Rows(events: seq<Event>): Option<map<Mandate, bool>> {
    if events == [] then Some(map[])
    else
      var before := Rows(events[..|events| - 1]);
      if before.None? then None else Fold(before.value, events[|events| - 1])
  }

  function Flows(m: Mandate): set<string> { set i | 0 <= i < |m.flows| :: m.flows[i] }

  /** No enabled mandate covers any of these flows. */
  predicate Free(held: map<Mandate, bool>, flows: set<string>) {
    forall m :: m in held && held[m] ==> Flows(m) !! flows
  }

  // ---------- reservations ----------

  predicate Under(phase: Phase, m: Mandate) { !phase.Planned? && phase.under == Some(m) }

  function Reserved(ops: seq<Op>, m: Mandate): nat {
    if ops == [] then 0
    else Reserved(ops[..|ops| - 1], m) +
         (if Under(ops[|ops| - 1].phase, m) then |ops[|ops| - 1].plan.calls| else 0)
  }

  function At(ops: seq<Op>, plan: Drain): (i: nat)
    ensures i <= |ops| && (i < |ops| ==> ops[i].plan == plan)
  {
    if ops == [] || ops[0].plan == plan then 0 else 1 + At(ops[1..], plan)
  }

  // ---------- one local drive ----------

  /** Where one drain stage ends: an exception or a crash may end the drive after any append. */
  datatype Fate = Finishes | DiesBeforePlan | DiesPlanned | DiesAuthorized | ExecutionFails

  /** What one lane of the drive meets: its never-attempted calls, the inputs as they stand then, and
      how its stage ends. */
  datatype Lane = Lane(calls: seq<string>, inputs: string, fate: Fate)

  datatype Luck = Luck(extract: Lane, review: Lane)

  datatype Driven = Driven(ops: seq<Op>, remaining: nat, alive: bool)

  function Prefix(calls: seq<string>, cap: nat): seq<string> { if |calls| <= cap then calls else calls[..cap] }

  /** Plan, authorize and execute one drain: an identical plan is reused, an identical failed one
      refused, and an authorization is appended at most once. */
  function RunStage(ops: seq<Op>, m: Mandate, flow: string, stage: string, lane: Lane, remaining: nat): Driven {
    var plan := Drain(flow, stage, lane.inputs, Prefix(lane.calls, remaining), Some(m));
    var fate := lane.fate;
    var i := At(ops, plan);
    if remaining == 0 || lane.calls == [] then Driven(ops, remaining, true)
    else if fate == DiesBeforePlan || (i < |ops| && ops[i].phase.Failed?) then Driven(ops, remaining, false)
    else
      var planned := if i < |ops| then ops else ops + [Op(plan, Planned)];
      if fate == DiesPlanned then Driven(planned, remaining, false)
      else
        var op := planned[i];
        var allowed := if op.phase.Planned? then planned[i := Op(plan, Authorized(Some(m)))] else planned;
        if fate == ExecutionFails then Driven(allowed[i := Op(plan, Failed(allowed[i].phase.under))], remaining, false)
        else if fate == DiesAuthorized then Driven(allowed, remaining, false)
        else Driven(allowed, remaining - |plan.calls|, true)
  }

  function Drive(ops: seq<Op>, m: Mandate, flow: string, cap: nat, luck: Luck): Driven {
    var extracted := RunStage(ops, m, flow, "extract-drain", luck.extract, cap);
    if !extracted.alive then extracted
    else RunStage(extracted.ops, m, flow, "review-drain", luck.review, extracted.remaining)
  }

  // ---------- ticks ----------

  datatype Report = Unknown | Corrupt | Exceeded | Standing(enabled: bool, remaining: nat)

  function StatusOf(events: seq<Event>, ops: seq<Op>, m: Mandate): Report {
    if Rows(events).None? then Corrupt
    else if m !in Rows(events).value then Unknown
    else if Reserved(ops, m) > m.cap then Exceeded
    else Standing(Rows(events).value[m], m.cap - Reserved(ops, m))
  }

  /** A tick drives each of its flows in turn, each under what the mandate has left by then. `stops`
      is the first flow at which something outside the drive refuses to go on. */
  function OverFlows(events: seq<Event>, ops: seq<Op>, m: Mandate, luck: seq<Luck>, stops: nat, i: nat): seq<Op>
    requires i <= |m.flows|
    decreases |m.flows| - i
  {
    if i == |m.flows| || i >= stops || i >= |luck| then ops
    else
      var status := StatusOf(events, ops, m);
      if !status.Standing? then ops
      else
        var driven := Drive(ops, m, m.flows[i], status.remaining, luck[i]);
        if driven.alive then OverFlows(events, driven.ops, m, luck, stops, i + 1) else driven.ops
  }

  function Ticked(events: seq<Event>, ops: seq<Op>, m: Mandate, luck: seq<Luck>, stops: nat): seq<Op> {
    var status := StatusOf(events, ops, m);
    if status.Standing? && status.enabled then OverFlows(events, ops, m, luck, stops, 0) else ops
  }

  predicate AllDifferent(flows: seq<string>) { forall i, j :: 0 <= i < j < |flows| ==> flows[i] != flows[j] }

  class Ledgers {
    var events: seq<Event>
    var ops: seq<Op>

    constructor ()
      ensures events == [] && ops == []
    {
      events, ops := [], [];
    }

    method ReadRows() returns (held: Option<map<Mandate, bool>>)
      ensures held == Rows(events)
    {
      held := Some(map[]);
      for i := 0 to |events|
        invariant held == Rows(events[..i])
      {
        assert events[..i + 1][..i] == events[..i];
        if held.Some? {
          held := Fold(held.value, events[i]);
        }
      }
      assert events[..|events|] == events;
    }

    /** `fit` is every check that does not concern the mandate ledger. */
    method Enable(m: Mandate, fit: bool) returns (ok: bool)
      requires m.version == 2 && |m.flows| == 1
      modifies this`events
      ensures ok == (fit && Rows(old(events)).Some? && Free(Rows(old(events)).value, Flows(m)))
      ensures events == if ok then old(events) + [Enabled(m)] else old(events)
    {
      var held := ReadRows();
      ok := fit && held.Some? && Free(held.value, Flows(m));
      if ok {
        events := events + [Enabled(m)];
      }
    }

    method EnableSeries(m: Mandate, fit: bool) returns (ok: bool)
      requires m.version == 3
      modifies this`events
      ensures ok == (fit && m.flows != [] && AllDifferent(m.flows) && Rows(old(events)).Some?
                     && Free(Rows(old(events)).value, Flows(m)))
      ensures events == if ok then old(events) + [Enabled(m)] else old(events)
    {
      if !fit || m.flows == [] || !AllDifferent(m.flows) {
        return false;
      }
      var held := ReadRows();
      ok := held.Some? && Free(held.value, Flows(m));
      if ok {
        events := events + [Enabled(m)];
      }
    }

    /** Disabling twice is one disabling. */
    method Disable(m: Mandate) returns (ok: bool)
      modifies this`events
      ensures ok == (Rows(old(events)).Some? && m in Rows(old(events)).value)
      ensures events == if ok && Rows(old(events)).value[m] then old(events) + [Disabled(m)] else old(events)
    {
      var held := ReadRows();
      ok := held.Some? && m in held.value;
      if ok && held.value[m] {
        events := events + [Disabled(m)];
      }
    }

    method CountReserved(m: Mandate) returns (total: nat)
      ensures total == Reserved(ops, m)
    {
      total := 0;
      for i := 0 to |ops|
        invariant total == Reserved(ops[..i], m)
      {
        assert ops[..i + 1][..i] == ops[..i];
        if Under(ops[i].phase, m) {
          total := total + |ops[i].plan.calls|;
        }
      }
      assert ops[..|ops|] == ops;
    }

    method Status(m: Mandate) returns (report: Report)
      ensures report == StatusOf(events, ops, m)
    {
      var held := ReadRows();
      if held.None? {
        return Corrupt;
      }
      if m !in held.value {
        return Unknown;
      }
      var reserved := CountReserved(m);
      if reserved > m.cap {
        return Exceeded;
      }
      report := Standing(held.value[m], m.cap - reserved);
    }

    method Stage(m: Mandate, flow: string, stage: string, lane: Lane, left: nat)
        returns (remaining: nat, alive: bool)
      modifies this`ops
      ensures Driven(ops, remaining, alive) == RunStage(old(ops), m, flow, stage, lane, left)
    {
      remaining, alive := left, true;
      if left == 0 || lane.calls == [] {
        return;
      }
      var plan := Drain(flow, stage, lane.inputs, Prefix(lane.calls, left), Some(m));
      var fate := lane.fate;
      var i := At(ops, plan);
      alive := false;
      if fate == DiesBeforePlan || (i < |ops| && ops[i].phase.Failed?) {
        return;
      }
      if i == |ops| {
        ops := ops + [Op(plan, Planned)];
      }
      if fate == DiesPlanned {
        return;
      }
      if ops[i].phase.Planned? {
        ops := ops[i := Op(plan, Authorized(Some(m)))];
      }
      if fate == ExecutionFails {
        ops := ops[i := Op(plan, Failed(ops[i].phase.under))];
        return;
      }
      if fate == DiesAuthorized {
        return;
      }
      remaining := left - |plan.calls|;
      alive := true;
    }

    method DriveLocal(m: Mandate, flow: string, cap: nat, luck: Luck) returns (remaining: nat, alive: bool)
      modifies this`ops
      ensures Driven(ops, remaining, alive) == Drive(old(ops), m, flow, cap, luck)
    {
      remaining, alive := Stage(m, flow, "extract-drain", luck.extract, cap);
      if alive {
        remaining, alive := Stage(m, flow, "review-drain", luck.review, remaining);
      }
    }

    /** Advance every flow of a mandate under its one lifetime reservation counter. */
    method Tick(m: Mandate, luck: seq<Luck>, stops: nat)
      modifies this`ops
      ensures ops == Ticked(events, old(ops), m, luck, stops)
    {
      var status := Status(m);
      if !status.Standing? || !status.enabled {
        return;
      }
      for i := 0 to |m.flows|
        invariant OverFlows(events, ops, m, luck, stops, i) == OverFlows(events, old(ops), m, luck, stops, 0)
      {
        if i >= stops || i >= |luck| {
          return;
        }
        var now := Status(m);
        if !now.Standing? {
          return;
        }
        var _, alive := DriveLocal(m, m.flows[i], now.remaining, luck[i]);
        if !alive {
          return;
        }
      }
    }
  }
}
