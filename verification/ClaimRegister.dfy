/** `claimstone/extract.py` (`harvest`) and `claimstone/claim_records.py` (`current`): gate decisions
    appended to two ledgers, one for claims and one for rejections, that should read as one register
    per claim id. The gate itself and the value conversion are not modelled: a proposal arrives with
    their outcome. */
module ClaimRegister {
  import opened Seqs
  import opened Ledger

  type Batch = string

  /** The reader of an answer: call, backend and model. */
  type Reader = string

  /** Every runner names its harness; a legacy row may not. */
  type Name = s: string | s != "" witness "harness"

  /** One record of an answer's output; `rest` is everything the historical id does not name. */
  datatype Record = Record(question: string, result: string, quote: string, rest: string)

  /** `annotation_id` and the legacy `claim_id` digest these parts, to 32 and to 16 characters, so an
      annotation id is never a historical one. */
  datatype Id = Annotation(chunk: string, key: string, harness: string, record: Record)
              | Historical(chunk: string, question: string, result: string, quote: string)

  /** All of a decision row but `gate_revision` and `harvested_at`, which `same_decision` ignores. A
      legacy row may lack the result key. `rest` stands for the fields nothing here looks at. */
  datatype Decision = Decision(accepted: bool, record: Record, reader: Reader, harness: string, key: Option<string>,
                               rest: string, batches: set<Batch>)

  /** A legacy row may lack `gate_revision`. */
  datatype Row = Row(id: Id, revision: Option<nat>, decision: Decision)

  /** One record of the answer under one result key, at one chunk that asked for it. */
  datatype Proposal = Proposal(chunk: string, key: string, record: Record)

  datatype Answered = Answered(reader: Reader, harness: Name)
  datatype Verdict = Verdict(accepted: bool, rest: string)

  /** What one harvest reads: `results` holds one row per result key; the chunk, its text and source,
      the request and the project are fixed, so the gate's verdict is a function of the proposal. */
  datatype Harvesting = Harvesting(batch: Batch, answered: string -> Answered, judge: Proposal -> Verdict)

  function Key(row: Row): Option<Id> { Some(row.id) }

  function RevisionOr(row: Row, default: int): int {
    if row.revision.Some? then row.revision.value else default
  }

  // ---------- the two ledgers of one journal ----------

  /** Rows in the order they were appended, whichever file they went to. */
  type Journal = seq<Row>

  predicate IsClaim(row: Row) { row.decision.accepted }
  predicate IsRejection(row: Row) { !row.decision.accepted }

  function Claims(j: Journal): seq<Row> { Filter(IsClaim, j) }
  function Rejections(j: Journal): seq<Row> { Filter(IsRejection, j) }

  /** How `current` merges the two latest rows of an id. */
  function CurrentOf(claims: map<Id, Row>, rejections: map<Id, Row>, id: Id): Option<Row> {
    if id in claims && id in rejections then
      if RevisionOr(rejections[id], 0) > RevisionOr(claims[id], 0) then Some(rejections[id]) else Some(claims[id])
    else if id in claims then Some(claims[id])
    else if id in rejections then Some(rejections[id])
    else None
  }

  /** How `harvest` merges them: a claim row without a revision counts below zero here. */
  function HeldOf(claims: map<Id, Row>, rejections: map<Id, Row>, id: Id): Option<Row> {
    var held := if id in claims then RevisionOr(claims[id], -1) else -1;
    if id in rejections && RevisionOr(rejections[id], 0) > held then Some(rejections[id])
    else if id in claims then Some(claims[id])
    else None
  }

  function Current(j: Journal, id: Id): Option<Row> {
    CurrentOf(LatestBy(Claims(j), Key), LatestBy(Rejections(j), Key), id)
  }

  function Held(j: Journal, id: Id): Option<Row> {
    HeldOf(LatestBy(Claims(j), Key), LatestBy(Rejections(j), Key), id)
  }

  // ---------- one proposal ----------

  function HistoricalId(p: Proposal): Id { Historical(p.chunk, p.record.question, p.record.result, p.record.quote) }

  function AnnotationId(p: Proposal, h: Harvesting): Id {
    Annotation(p.chunk, p.key, h.answered(p.key).harness, p.record)
  }

  /** An annotation already on record under its historical id keeps that id. */
  predicate IsLegacy(held: Option<Row>, p: Proposal, h: Harvesting) {
    held.Some? && held.value.decision.reader == h.answered(p.key).reader && held.value.decision.record == p.record
    && (held.value.decision.harness == "" || held.value.decision.harness == h.answered(p.key).harness)
  }

  function Get(held: map<Id, Row>, id: Id): Option<Row> { if id in held then Some(held[id]) else None }

  function Resolve(held: map<Id, Row>, p: Proposal, h: Harvesting): Id {
    if IsLegacy(Get(held, HistoricalId(p)), p, h) then HistoricalId(p) else AnnotationId(p, h)
  }

  function Decide(previous: Option<Row>, p: Proposal, h: Harvesting): Decision {
    Decision(h.judge(p).accepted, p.record, h.answered(p.key).reader, h.answered(p.key).harness, Some(p.key),
             h.judge(p).rest, (if previous.Some? then previous.value.decision.batches else {}) + {h.batch})
  }

  /** The row a proposal appends, or none when the same decision is already held. */
  function Appended(held: map<Id, Row>, p: Proposal, h: Harvesting): Option<Row> {
    var id := Resolve(held, p, h);
    var previous := Get(held, id);
    var decision := Decide(previous, p, h);
    if previous.Some? && previous.value.decision == decision then None
    else Some(Row(id, Some((if previous.Some? then RevisionOr(previous.value, 0) else 0) + 1), decision))
  }

  function AfterOne(held: map<Id, Row>, p: Proposal, h: Harvesting): map<Id, Row> {
    var row := Appended(held, p, h);
    if row.None? then held else held[row.value.id := row.value]
  }

  function AfterAll(held: map<Id, Row>, ps: seq<Proposal>, h: Harvesting): map<Id, Row> {
    if ps == [] then held
    else AfterOne(AfterAll(held, ps[..|ps| - 1], h), ps[|ps| - 1], h)
  }

  function RowsOf(held: map<Id, Row>, ps: seq<Proposal>, h: Harvesting): seq<Row> {
    if ps == [] then []
    else
      var front := ps[..|ps| - 1];
      var row := Appended(AfterAll(held, front, h), ps[|ps| - 1], h);
      RowsOf(held, front, h) + (if row.None? then [] else [row.value])
  }

  function HeldMap(j: Journal): map<Id, Row> {
    var claims, rejections := LatestBy(Claims(j), Key), LatestBy(Rejections(j), Key);
    map id | id in claims.Keys + rejections.Keys && HeldOf(claims, rejections, id).Some? ::
      HeldOf(claims, rejections, id).value
  }

  ghost predicate HeldSoFar(accepted: map<Id, Row>, rejected: map<Id, Row>, held: map<Id, Row>, todo: set<Id>) {
    && held.Keys == accepted.Keys + (rejected.Keys - todo)
    && forall id :: id in held ==>
         Some(held[id]) == (if id in todo then Get(accepted, id) else HeldOf(accepted, rejected, id))
  }

  lemma HeldStep(accepted: map<Id, Row>, rejected: map<Id, Row>, held: map<Id, Row>, todo: set<Id>, id: Id)
    requires HeldSoFar(accepted, rejected, held, todo) && id in todo && id in rejected
    ensures var wins := RevisionOr(rejected[id], 0) > (if id in held then RevisionOr(held[id], -1) else -1);
            HeldSoFar(accepted, rejected, if wins then held[id := rejected[id]] else held, todo - {id})
  {}

  ghost predicate CurrentSoFar(yes: map<Id, Row>, no: map<Id, Row>, accepted: map<Id, Row>, rejected: map<Id, Row>,
                               todo: set<Id>) {
    && accepted.Keys * rejected.Keys == todo
    && (forall id :: id in todo ==> id in yes && id in no && accepted[id] == yes[id] && rejected[id] == no[id])
    && (forall id :: id !in todo ==> CurrentOf(yes, no, id) == Either(accepted, rejected, id))
  }

  lemma CurrentStep(yes: map<Id, Row>, no: map<Id, Row>, accepted: map<Id, Row>, rejected: map<Id, Row>, todo: set<Id>,
                    id: Id)
    requires CurrentSoFar(yes, no, accepted, rejected, todo) && id in todo
    ensures var wins := RevisionOr(rejected[id], 0) > RevisionOr(accepted[id], 0);
            CurrentSoFar(yes, no, if wins then accepted - {id} else accepted,
                         if wins then rejected else rejected - {id},
                         todo - {id})
  {}

  function Either(accepted: map<Id, Row>, rejected: map<Id, Row>, id: Id): Option<Row> {
    if id in accepted then Some(accepted[id]) else Get(rejected, id)
  }

  function AcceptedIn(rows: seq<Row>): nat {
    if rows == [] then 0
    else AcceptedIn(rows[..|rows| - 1]) + (if rows[|rows| - 1].decision.accepted then 1 else 0)
  }

  lemma HarvestOneMore(held: map<Id, Row>, ps: seq<Proposal>, i: nat, h: Harvesting)
    requires i < |ps|
    ensures var row := Appended(AfterAll(held, ps[..i], h), ps[i], h);
      var rows, more := RowsOf(held, ps[..i], h), RowsOf(held, ps[..i + 1], h);
      && AfterAll(held, ps[..i + 1], h) == AfterOne(AfterAll(held, ps[..i], h), ps[i], h)
      && more == (if row.None? then rows else rows + [row.value])
      && (row.Some? ==> row.value.decision.accepted == h.judge(ps[i]).accepted)
      && AcceptedIn(more) == AcceptedIn(rows) + (if row.Some? && row.value.decision.accepted then 1 else 0)
  {
    assert ps[..i + 1][..i] == ps[..i];
    var rows := RowsOf(held, ps[..i], h);
    var row := Appended(AfterAll(held, ps[..i], h), ps[i], h);
    if row.Some? {
      assert (rows + [row.value])[..|rows|] == rows;
    } else {
      assert rows + [] == rows;
    }
  }

  lemma HarvestNone(held: map<Id, Row>, h: Harvesting)
    ensures AfterAll(held, [], h) == held && RowsOf(held, [], h) == [] && AcceptedIn([]) == 0
  {}

  datatype Counts = Counts(proposed: nat, accepted: nat, rejected: nat, alreadyHeld: nat)

  function Tally(c: Counts, wrote: bool, accepted: bool): Counts {
    if !wrote then Counts(c.proposed + 1, c.accepted, c.rejected, c.alreadyHeld + 1)
    else if accepted then Counts(c.proposed + 1, c.accepted + 1, c.rejected, c.alreadyHeld)
    else Counts(c.proposed + 1, c.accepted, c.rejected + 1, c.alreadyHeld)
  }

  /** Every proposal is counted once, and what was written is what the ledgers gained. */
  predicate Tallies(c: Counts, rows: seq<Row>) {
    && c.proposed == c.accepted + c.rejected + c.alreadyHeld
    && c.accepted == AcceptedIn(rows) && c.accepted + c.rejected == |rows|
  }

  class Register {
    var claims: seq<Row>
    var rejections: seq<Row>
    ghost var journal: Journal

    ghost predicate Valid() reads this {
      claims == Claims(journal) && rejections == Rejections(journal)
    }

    constructor (ghost legacy: Journal, claims: seq<Row>, rejections: seq<Row>)
      requires claims == Claims(legacy) && rejections == Rejections(legacy)
      ensures Valid() && journal == legacy
    {
      this.claims, this.rejections, journal := claims, rejections, legacy;
    }

    method Append(row: Row)
      requires Valid()
      modifies this
      ensures Valid() && journal == old(journal) + [row]
    {
      FilterConcat(IsClaim, journal, [row]);
      FilterConcat(IsRejection, journal, [row]);
      if row.decision.accepted {
        claims := claims + [row];
      } else {
        rejections := rejections + [row];
      }
      journal := journal + [row];
    }

    method ReadHeld() returns (held: map<Id, Row>)
      requires Valid()
      ensures held == HeldMap(journal)
    {
      var accepted := ReadLatestBy(claims, Key);
      var rejected := ReadLatestBy(rejections, Key);
      held := accepted;
      var todo := rejected.Keys;
      while todo != {}
        invariant todo <= rejected.Keys && HeldSoFar(accepted, rejected, held, todo)
        decreases todo
      {
        var id :| id in todo;
        HeldStep(accepted, rejected, held, todo, id);
        todo := todo - {id};
        if RevisionOr(rejected[id], 0) > (if id in held then RevisionOr(held[id], -1) else -1) {
          held := held[id := rejected[id]];
        }
      }
    }

    /** `current`: of an id on both ledgers, the one with the lower revision is dropped. */
    method ReadCurrent() returns (accepted: map<Id, Row>, rejected: map<Id, Row>)
      requires Valid()
      ensures accepted.Keys !! rejected.Keys
      ensures forall id :: Current(journal, id) == Either(accepted, rejected, id)
    {
      accepted := ReadLatestBy(claims, Key);
      rejected := ReadLatestBy(rejections, Key);
      ghost var yes, no := accepted, rejected;
      var todo := accepted.Keys * rejected.Keys;
      while todo != {}
        invariant CurrentSoFar(yes, no, accepted, rejected, todo)
        decreases todo
      {
        var id :| id in todo;
        CurrentStep(yes, no, accepted, rejected, todo, id);
        todo := todo - {id};
        if RevisionOr(rejected[id], 0) > RevisionOr(accepted[id], 0) {
          accepted := accepted - {id};
        } else {
          rejected := rejected - {id};
        }
      }
    }

    /** Append one proposal's decision unless the same decision is already held. */
    method HarvestOne(held: map<Id, Row>, p: Proposal, h: Harvesting) returns (now: map<Id, Row>, wrote: bool)
      requires Valid()
      modifies this
      ensures Valid() && now == AfterOne(held, p, h) && wrote == Appended(held, p, h).Some?
      ensures journal == old(journal) + (if wrote then [Appended(held, p, h).value] else [])
    {
      var identifier := if IsLegacy(Get(held, HistoricalId(p)), p, h) then HistoricalId(p) else AnnotationId(p, h);
      var previous := Get(held, identifier);
      var decision := Decide(previous, p, h);
      if previous.Some? && previous.value.decision == decision {
        return held, false;
      }
      var row := Row(identifier, Some((if previous.Some? then RevisionOr(previous.value, 0) else 0) + 1), decision);
      Append(row);
      return held[identifier := row], true;
    }

    method HarvestEach(start: map<Id, Row>, proposals: seq<Proposal>, h: Harvesting) returns (counts: Counts)
      requires Valid()
      modifies this
      ensures Valid() && journal == old(journal) + RowsOf(start, proposals, h)
      ensures counts.proposed == |proposals| && Tallies(counts, RowsOf(start, proposals, h))
    {
      HarvestNone(start, h);
      hide AfterOne, Appended, RowsOf, AfterAll, Claims, Rejections, AcceptedIn;
      var held := start;
      assert proposals[..0] == [] && journal + [] == journal;
      counts := Counts(0, 0, 0, 0);
      ghost var rows: seq<Row> := [];
      for i := 0 to |proposals|
        invariant Valid() && held == AfterAll(start, proposals[..i], h)
        invariant rows == RowsOf(start, proposals[..i], h) && journal == old(journal) + rows
        invariant counts.proposed == i && Tallies(counts, rows)
      {
        HarvestOneMore(start, proposals, i, h);
        var wrote;
        held, wrote := HarvestOne(held, proposals[i], h);
        rows := RowsOf(start, proposals[..i + 1], h);
        assert journal == old(journal) + rows;
        counts := Tally(counts, wrote, h.judge(proposals[i]).accepted);
      }
      assert proposals[..|proposals|] == proposals;
    }

    method Harvest(proposals: seq<Proposal>, h: Harvesting) returns (counts: Counts)
      requires Valid()
      modifies this
      ensures Valid() && journal == old(journal) + RowsOf(HeldMap(old(journal)), proposals, h)
      ensures counts.proposed == |proposals| && Tallies(counts, RowsOf(HeldMap(old(journal)), proposals, h))
    {
      var held := ReadHeld();
      counts := HarvestEach(held, proposals, h);
    }
  }
}
