/** `claimstone/copy_policy.py`: finite authority to acquire copies that an approved schedule finds.
    The policy ledger and the operation ledger are written under one lock, so together they form one
    journal; each ledger is its own entries of that journal, in order. */
module CopyPolicy {
  import opened Seqs

  /** A policy is its own identity: the ledger names it by the digest of these terms. */
  datatype Policy = Policy(max: nat, each: nat, notBefore: int, expires: int, schedule: string, flows: seq<string>,
                           rest: string)

  /** A frozen acquisition plan, named by its digest: `rest` is everything else it froze. */
  datatype Plan = Plan(candidate: string, requests: nat, rest: string)

  datatype Stage = Planned | Authorized | Revoked
  datatype Phase = Absent | Waiting | Allowed | Started | UnitCompleted | Completed | Failed

  /** The policy an authorization names, and, as history only, the clock reading at which the policy
      was last found due before it. */
  datatype Grant = Grant(policy: Policy, checked: int)

  datatype Entry =
    | PolicyEvent(policy: Policy, stage: Stage)
    | OpPlanned(plan: Plan)
    | OpAuthorized(plan: Plan, under: Option<Grant>, at: int)
    | OpMoved(plan: Plan, to: Phase)

  const DAYS_366: int := 366 * 86400

  // ---------- reading the journal ----------

  datatype Policies = Policies(order: seq<Policy>, stage: map<Policy, Stage>)

  /** One event folded in, or a ledger nobody may read on. */
  function Fold(held: Policies, e: Entry): Option<Policies> {
    if !e.PolicyEvent? then Some(held)
    else match e.stage
      case Planned =>
        if e.policy in held.stage then None
        else Some(Policies(held.order + [e.policy], held.stage[e.policy := Planned]))
      case Authorized =>
        if e.policy !in held.stage || held.stage[e.policy] != Planned then None
        else Some(held.(stage := held.stage[e.policy := Authorized]))
      case Revoked =>
        if e.policy !in held.stage || held.stage[e.policy] != Authorized then None
        else Some(held.(stage := held.stage[e.policy := Revoked]))
  }

  function Read(journal: seq<Entry>): Option<Policies> {
    if journal == [] then Some(Policies([], map[]))
    else
      var before := Read(journal[..|journal| - 1]);
      if before.None? then None else Fold(before.value, journal[|journal| - 1])
  }

  predicate Holds(journal: seq<Entry>, p: Policy, stage: Stage) {
    Read(journal).Some? && p in Read(journal).value.stage && Read(journal).value.stage[p] == stage
  }

  function PhaseOf(journal: seq<Entry>, plan: Plan): Phase {
    if journal == [] then Absent
    else
      match journal[|journal| - 1]
      case OpPlanned(q) => if q == plan then Waiting else PhaseOf(journal[..|journal| - 1], plan)
      case OpAuthorized(q, _, _) => if q == plan then Allowed else PhaseOf(journal[..|journal| - 1], plan)
      case OpMoved(q, to) => if q == plan then to else PhaseOf(journal[..|journal| - 1], plan)
      case PolicyEvent(_, _) => PhaseOf(journal[..|journal| - 1], plan)
  }

  predicate Running(phase: Phase) { phase in {Allowed, Started, UnitCompleted} }

  /** Candidates with an acquisition in flight. */
  function InFlight(journal: seq<Entry>): set<string> {
    set i | 0 <= i < |journal| && journal[i].OpAuthorized? && Running(PhaseOf(journal, journal[i].plan))
      :: journal[i].plan.candidate
  }

  predicate Reserves(p: Policy, e: Entry) { e.OpAuthorized? && e.under.Some? && e.under.value.policy == p }

  function Reservations(journal: seq<Entry>, p: Policy): seq<Entry> { Filter(e => Reserves(p, e), journal) }

  function Requests(reserved: seq<Entry>): nat {
    if reserved == [] then 0
    else Requests(reserved[..|reserved| - 1])
         + (if reserved[|reserved| - 1].OpAuthorized? then reserved[|reserved| - 1].plan.requests else 0)
  }

  function Candidates(reserved: seq<Entry>): set<string> {
    set i | 0 <= i < |reserved| && reserved[i].OpAuthorized? :: reserved[i].plan.candidate
  }

  predicate OverCeiling(journal: seq<Entry>, p: Policy) {
    |Reservations(journal, p)| > p.max || Requests(Reservations(journal, p)) > p.max * p.each
  }

  // ---------- the world outside ----------

  /** What one pass reads besides the journal: the flow to serve, the k-th reading of the clock,
      schedules, flows, the eligible candidates of a flow in their sorted order, and the planner. */
  datatype World = World(only: Option<string>, clock: nat -> int, scheduled: string -> bool, current: Policy -> bool,
                         flowOk: string -> bool, eligible: (Policy, string) -> seq<string>,
                         planner: (Policy, string, string) -> Option<string>)

  predicate InWindow(p: Policy, now: int) { p.notBefore <= now < p.expires }

  /** `due`, for a policy whose last event is its authorization. */
  predicate Due(w: World, p: Policy, check: nat) { InWindow(p, w.clock(check)) && w.scheduled(p.schedule) }

  // ---------- one pass ----------

  datatype Pass = Pass(journal: seq<Entry>, checks: nat, made: seq<Plan>, used: set<string>, active: set<string>,
                       remaining: int)

  /** The planner's frozen plan for this candidate, unless it refuses or the identical plan failed. */
  function Frozen(w: World, p: Policy, flow: string, key: string, journal: seq<Entry>): Option<Plan> {
    var rest := w.planner(p, flow, key);
    if rest.None? then None
    else
      var plan := Plan(key, p.each, rest.value);
      if PhaseOf(journal, plan) == Failed then None else Some(plan)
  }

  /** The check that found the policy due took reading `s.checks`; the authorization is dated by the
      next one. */
  function Reserve(w: World, p: Policy, flow: string, key: string, s: Pass): Pass {
    var frozen := Frozen(w, p, flow, key, s.journal);
    var s' := s.(checks := s.checks + 1);
    if frozen.None? then s'
    else
      var plan := frozen.value;
      var phase := PhaseOf(s.journal, plan);
      var planned := if phase == Absent then s.journal + [OpPlanned(plan)] else s.journal;
      if phase !in {Absent, Waiting} then s'
      else Pass(planned + [Authorization(w, p, plan, s.checks)], s.checks + 2, s.made + [plan],
                s.used + {key}, s.active + {key}, s.remaining - 1)
  }

  function Authorization(w: World, p: Policy, plan: Plan, check: nat): Entry {
    OpAuthorized(plan, Some(Grant(p, w.clock(check))), w.clock(check + 1))
  }

  function OverKeys(w: World, p: Policy, flow: string, keys: seq<string>, i: nat, s: Pass): Pass
    requires i <= |keys|
    decreases |keys| - i
  {
    if i == |keys| || s.remaining <= 0 then s
    else if keys[i] in s.used || keys[i] in s.active then OverKeys(w, p, flow, keys, i + 1, s)
    else if !Due(w, p, s.checks) then s.(checks := s.checks + 1)
    else OverKeys(w, p, flow, keys, i + 1, Reserve(w, p, flow, keys[i], s))
  }

  function OverFlows(w: World, p: Policy, i: nat, s: Pass): Pass
    requires i <= |p.flows|
    decreases |p.flows| - i
  {
    if i == |p.flows| then s
    else
      var flow := p.flows[i];
      if (w.only.Some? && w.only.value != flow) || !w.flowOk(flow) then OverFlows(w, p, i + 1, s)
      else OverFlows(w, p, i + 1, OverKeys(w, p, flow, w.eligible(p, flow), 0, s))
  }

  /** A pass may stop at a ledger whose reservations exceed a ceiling. */
  datatype Round = Round(pass: Pass, exceeded: bool)

  function OnePolicy(w: World, p: Policy, stage: Stage, s: Pass): Round {
    if stage != Authorized then Round(s, false)
    else if !Due(w, p, s.checks) then Round(s.(checks := s.checks + 1), false)
    else
      var reserved := Reservations(s.journal, p);
      if OverCeiling(s.journal, p) then Round(s.(checks := s.checks + 1), true)
      else if !w.current(p) then Round(s.(checks := s.checks + 1), false)
      else
        var start := s.(checks := s.checks + 1, used := Candidates(reserved), remaining := p.max - |reserved|);
        if start.remaining <= 0 then Round(start, false) else Round(OverFlows(w, p, 0, start), false)
  }

  function OverPolicies(w: World, held: Policies, i: nat, s: Pass): Round
    requires i <= |held.order| && forall k :: 0 <= k < |held.order| ==> held.order[k] in held.stage
    decreases |held.order| - i
  {
    if i == |held.order| then Round(s, false)
    else
      var round := OnePolicy(w, held.order[i], held.stage[held.order[i]], s);
      if round.exceeded then round else OverPolicies(w, held, i + 1, round.pass)
  }

  function StartPass(journal: seq<Entry>): Pass { Pass(journal, 0, [], {}, InFlight(journal), 0) }

  lemma {:induction false} OrderIsHeld(journal: seq<Entry>)
    ensures Read(journal).Some? ==>
      forall k :: 0 <= k < |Read(journal).value.order| ==> Read(journal).value.order[k] in Read(journal).value.stage
  {
    if journal != [] {
      OrderIsHeld(journal[..|journal| - 1]);
    }
  }

  function Materialized(w: World, journal: seq<Entry>): Option<Round> {
    OrderIsHeld(journal);
    if Read(journal).None? then None else Some(OverPolicies(w, Read(journal).value, 0, StartPass(journal)))
  }

  // ---------- the ledgers ----------

  datatype Reply = Refused | Corrupt | Exceeded | Status(stage: Stage, reserved: nat, remaining: int)

  function StatusOf(journal: seq<Entry>, p: Policy): Reply {
    if Read(journal).None? then Corrupt
    else if p !in Read(journal).value.stage then Refused
    else if OverCeiling(journal, p) then Exceeded
    else Status(Read(journal).value.stage[p], |Reservations(journal, p)|, p.max - |Reservations(journal, p)|)
  }

  /** The terms a policy may be frozen with at `now`. */
  predicate Plannable(p: Policy, now: int) {
    1 <= p.max <= 1000 && 1 <= p.each <= 20 && p.notBefore < p.expires && now < p.expires <= now + DAYS_366
  }

  class Ledgers {
    var journal: seq<Entry>

    constructor ()
      ensures journal == []
    {
      journal := [];
    }

    method ReadPolicies() returns (held: Option<Policies>)
      ensures held == Read(journal)
    {
      held := Some(Policies([], map[]));
      for i := 0 to |journal|
        invariant held == Read(journal[..i])
      {
        assert journal[..i + 1][..i] == journal[..i];
        if held.Some? {
          held := Fold(held.value, journal[i]);
        }
      }
      assert journal[..|journal|] == journal;
    }

    /** Freeze a ceiling; freezing the same terms again appends nothing. `fit` is every check that
        does not concern the terms themselves. */
    method PlanPolicy(p: Policy, fit: bool, now: int) returns (reply: Reply)
      modifies this
      ensures journal == if Plannable(p, now) && fit && Read(old(journal)).Some? && p !in Read(old(journal)).value.stage
                         then old(journal) + [PolicyEvent(p, Planned)] else old(journal)
      ensures Plannable(p, now) && fit ==> reply == StatusOf(journal, p)
      ensures !(Plannable(p, now) && fit) ==> reply == Refused
    {
      if !Plannable(p, now) || !fit {
        return Refused;
      }
      var held := ReadPolicies();
      if held.None? {
        return Corrupt;
      }
      if p !in held.value.stage {
        journal := journal + [PolicyEvent(p, Planned)];
      }
      reply := StatusOf(journal, p);
    }

    method AuthorizePolicy(p: Policy, now: int) returns (reply: Reply)
      modifies this
      ensures journal == if Holds(old(journal), p, Planned) && now < p.expires
                         then old(journal) + [PolicyEvent(p, Authorized)] else old(journal)
      ensures reply == Refused || reply == StatusOf(journal, p)
      ensures Holds(old(journal), p, Revoked) ==> reply == Refused
    {
      var held := ReadPolicies();
      if held.None? {
        return Corrupt;
      }
      if p !in held.value.stage || held.value.stage[p] == Revoked {
        return Refused;
      }
      if held.value.stage[p] == Planned {
        if p.expires <= now {
          return Refused;
        }
        journal := journal + [PolicyEvent(p, Authorized)];
      }
      reply := StatusOf(journal, p);
    }

    method RevokePolicy(p: Policy) returns (reply: Reply)
      modifies this
      ensures journal == if Holds(old(journal), p, Authorized) then old(journal) + [PolicyEvent(p, Revoked)]
          else old(journal)
      ensures reply == Refused || reply == StatusOf(journal, p)
    {
      var held := ReadPolicies();
      if held.None? {
        return Corrupt;
      }
      if p !in held.value.stage || held.value.stage[p] == Planned {
        return Refused;
      }
      if held.value.stage[p] != Revoked {
        journal := journal + [PolicyEvent(p, Revoked)];
      }
      reply := StatusOf(journal, p);
    }

    /** The innermost loop: one flow's candidates. */
    method ReserveKeys(w: World, p: Policy, flow: string, pass: Pass) returns (s: Pass)
      requires pass.journal == journal
      modifies this
      ensures s == OverKeys(w, p, flow, w.eligible(p, flow), 0, pass) && s.journal == journal
    {
      var keys := w.eligible(p, flow);
      s := pass;
      for i := 0 to |keys|
        invariant s.journal == journal
        invariant OverKeys(w, p, flow, keys, i, s) == OverKeys(w, p, flow, keys, 0, pass)
      {
        if s.remaining <= 0 {
          return;
        }
        var key := keys[i];
        if key in s.used || key in s.active {
          continue;
        }
        if !Due(w, p, s.checks) {
          return s.(checks := s.checks + 1);
        }
        s := ReserveKey(w, p, flow, key, s);
      }
    }

    method ReserveKey(w: World, p: Policy, flow: string, key: string, pass: Pass) returns (s: Pass)
      requires pass.journal == journal
      modifies this
      ensures s == Reserve(w, p, flow, key, pass) && s.journal == journal
    {
      s := pass.(checks := pass.checks + 1);
      var frozen := Frozen(w, p, flow, key, journal);
      if frozen.None? {
        return;
      }
      var phase := PhaseOf(journal, frozen.value);
      if phase == Absent {
        journal := journal + [OpPlanned(frozen.value)];
      } else if phase != Waiting {
        return;
      }
      journal := journal + [Authorization(w, p, frozen.value, pass.checks)];
      s := Pass(journal, pass.checks + 2, s.made + [frozen.value], s.used + {key}, s.active + {key}, s.remaining - 1);
    }

    method ServePolicy(w: World, p: Policy, stage: Stage, pass: Pass) returns (round: Round)
      requires pass.journal == journal
      modifies this
      ensures round == OnePolicy(w, p, stage, pass) && round.pass.journal == journal
    {
      if stage != Authorized {
        return Round(pass, false);
      }
      var s := pass.(checks := pass.checks + 1);
      if !Due(w, p, pass.checks) {
        return Round(s, false);
      }
      var reserved := Reservations(journal, p);
      if |reserved| > p.max || Requests(reserved) > p.max * p.each {
        return Round(s, true);
      }
      if !w.current(p) {
        return Round(s, false);
      }
      s := s.(used := Candidates(reserved), remaining := p.max - |reserved|);
      if s.remaining <= 0 {
        return Round(s, false);
      }
      ghost var start := s;
      for i := 0 to |p.flows|
        invariant s.journal == journal && OverFlows(w, p, i, s) == OverFlows(w, p, 0, start)
      {
        var flow := p.flows[i];
        if (w.only.Some? && w.only.value != flow) || !w.flowOk(flow) {
          continue;
        }
        s := ReserveKeys(w, p, flow, s);
      }
      round := Round(s, false);
    }

    /** One pass over every policy, its flows and their candidates; stops at an over-full ledger. */
    method MaterializeDue(w: World) returns (made: Option<seq<Plan>>)
      modifies this
      ensures var round := Materialized(w, old(journal));
              journal == (if round.None? then old(journal) else round.value.pass.journal)
              && made == (if round.None? || round.value.exceeded then None else Some(round.value.pass.made))
    {
      var held := ReadPolicies();
      OrderIsHeld(journal);
      if held.None? {
        return None;
      }
      var s := StartPass(journal);
      for i := 0 to |held.value.order|
        invariant s.journal == journal
        invariant OverPolicies(w, held.value, i, s) == OverPolicies(w, held.value, 0, StartPass(old(journal)))
      {
        var p := held.value.order[i];
        var round := ServePolicy(w, p, held.value.stage[p], s);
        if round.exceeded {
          return None;
        }
        s := round.pass;
      }
      made := Some(s.made);
    }
  }
}
