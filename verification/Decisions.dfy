/** `claimstone/decisions.py`: purchase offers and the other operator decisions, one append-only
    ledger whose latest row per decision is its state. Every operation runs under the writer lock. */
module Decisions {
  import opened Seqs
  import opened Ledger

  type Id = string

  datatype Kind = Identity | RetryCampaign | PurchaseOffer
  datatype State = Recorded | Proposed | Approved | BoughtExternally | Declined | Obsolete | Deferred

  /** The fields that make an offer the same offer. */
  datatype Terms = Terms(vendor: string, price: string, currency: string, tax: Option<string>, termsUrl: string,
                         workVersion: string)

  datatype Row = Row(id: Id, kind: Kind, flow: string, candidate: string, terms: Terms, state: State,
                     supersededBy: Option<Id>, supersedes: Option<Id>)

  datatype Refusal = BadRequest | NotFound | Conflict
  datatype Outcome = Written(row: Row) | Refused(reason: Refusal)

  function Key(row: Row): Option<Id> { Some(row.id) }

  /** The ids in first-recorded order, as the dictionary of latest rows iterates them. */
  function Order(ledger: seq<Row>): seq<Id> {
    if ledger == [] then []
    else
      var front, id := Order(ledger[..|ledger| - 1]), ledger[|ledger| - 1].id;
      if id in front then front else front + [id]
  }

  function Latest(ledger: seq<Row>): map<Id, Row> { LatestBy(ledger, Key) }

  lemma {:induction false} OrderIsKeys(ledger: seq<Row>)
    ensures forall id :: id in Order(ledger) <==> id in Latest(ledger)
    ensures Distinct(Order(ledger))
    ensures forall id :: id in Latest(ledger) ==> Latest(ledger)[id].id == id && Latest(ledger)[id] in ledger
  {
    if ledger != [] {
      OrderIsKeys(ledger[..|ledger| - 1]);
    }
  }

  predicate Closed(state: State) { state == Declined || state == Obsolete }

  /** A live offer: one that may still be acted on. A deferred offer is live. */
  predicate Live(row: Row, candidate: string) {
    row.kind == PurchaseOffer && row.candidate == candidate && !Closed(row.state)
  }

  // ---------- what an operation appends ----------

  function Superseded(previous: Row, successor: Id): Row {
    previous.(state := Obsolete, supersededBy := Some(successor))
  }

  /** The walk over the latest rows that a new offer makes: what it has appended, what it
      supersedes, and whether it stopped because the same offer is already on record. */
  datatype Walk = Walk(appended: seq<Row>, supersedes: Option<Id>, duplicate: bool)

  function WalkOver(order: seq<Id>, latest: map<Id, Row>, row: Row): Walk
    requires forall id :: id in order ==> id in latest
  {
    if order == [] then Walk([], None, false)
    else
      var w := WalkOver(order[..|order| - 1], latest, row);
      var previous := latest[order[|order| - 1]];
      if w.duplicate || !Live(previous, row.candidate) then w
      else if previous.terms == row.terms then w.(duplicate := true)
      else Walk(w.appended + [Superseded(previous, row.id)], Some(previous.id), false)
  }

  function WalkOf(ledger: seq<Row>, row: Row): Walk
  {
    OrderIsKeys(ledger);
    WalkOver(Order(ledger), Latest(ledger), row)
  }

  function NewOffer(id: Id, flow: string, candidate: string, terms: Terms): Row {
    Row(id, PurchaseOffer, flow, candidate, terms, Proposed, None, None)
  }

  /** A new offer for a candidate in scope that has no copy yet. */
  function OfferLedger(ledger: seq<Row>, row: Row): seq<Row> {
    var w := WalkOf(ledger, row);
    ledger + w.appended + if w.duplicate then [] else [row.(supersedes := w.supersedes)]
  }

  predicate NextByHand(from: State, to: State) {
    match from
    case Proposed => to == Approved || to == Declined
    case Approved => to == BoughtExternally || to == Declined
    case _ => false
  }

  class Decisions {
    var ledger: seq<Row>

    constructor ()
      ensures ledger == []
    {
      ledger := [];
    }

    method ReadLatest() returns (order: seq<Id>, latest: map<Id, Row>)
      ensures order == Order(ledger) && latest == Latest(ledger)
    {
      order, latest := [], map[];
      for i := 0 to |ledger|
        invariant order == Order(ledger[..i]) && latest == Latest(ledger[..i])
      {
        assert ledger[..i + 1][..i] == ledger[..i];
        if ledger[i].id !in order {
          order := order + [ledger[i].id];
        }
        latest := latest[ledger[i].id := ledger[i]];
      }
      assert ledger[..|ledger|] == ledger;
    }

    /** `record_offer`. The request is valid and the candidate in scope without a copy, or the call
        is refused before it reads the ledger. */
    method RecordOffer(validFields: bool, inScope: bool, hasCopy: bool, id: Id, flow: string, candidate: string,
                       terms: Terms) returns (r: Outcome)
      modifies this
      ensures !validFields || !inScope || hasCopy ==> r.Refused? && ledger == old(ledger)
      ensures validFields && inScope && !hasCopy ==>
        var row := NewOffer(id, flow, candidate, terms);
        && ledger == OfferLedger(old(ledger), row)
        && r == if WalkOf(old(ledger), row).duplicate then Refused(Conflict)
                else Written(row.(supersedes := WalkOf(old(ledger), row).supersedes))
    {
      if !validFields { return Refused(BadRequest); }
      if !inScope { return Refused(NotFound); }
      if hasCopy { return Refused(Conflict); }
      var row := NewOffer(id, flow, candidate, terms);
      var order, latest := ReadLatest();
      OrderIsKeys(ledger);
      var duplicate, supersedes := SupersedeLive(row, order, latest);
      if duplicate { return Refused(Conflict); }
      row := row.(supersedes := supersedes);
      ledger := ledger + [row];
      return Written(row);
    }

    /** Each live offer for the candidate becomes obsolete in turn, until one is the same offer. */
    method SupersedeLive(row: Row, order: seq<Id>, latest: map<Id, Row>)
        returns (duplicate: bool, supersedes: Option<Id>)
      requires forall id :: id in order ==> id in latest
      modifies this
      ensures ledger == old(ledger) + WalkOver(order, latest, row).appended
      ensures duplicate == WalkOver(order, latest, row).duplicate
      ensures supersedes == WalkOver(order, latest, row).supersedes
    {
      supersedes := None;
      for i := 0 to |order|
        invariant ledger == old(ledger) + WalkOver(order[..i], latest, row).appended
        invariant !WalkOver(order[..i], latest, row).duplicate
        invariant supersedes == WalkOver(order[..i], latest, row).supersedes
      {
        assert order[..i + 1][..i] == order[..i];
        var previous := latest[order[i]];
        if previous.kind == PurchaseOffer && previous.candidate == row.candidate
           && previous.state != Obsolete && previous.state != Declined {
          if previous.terms == row.terms {
            WalkStops(order, latest, row, i + 1);
            return true, supersedes;
          }
          ledger := ledger + [Superseded(previous, row.id)];
          supersedes := Some(previous.id);
        }
      }
      assert order[..|order|] == order;
      duplicate := false;
    }

    method OfferStage(flow: string, id: Id, stage: State) returns (r: Outcome)
      modifies this
      ensures var latest := Latest(old(ledger));
        if (stage == Approved || stage == BoughtExternally || stage == Declined)
           && id in latest && latest[id].kind == PurchaseOffer && latest[id].flow == flow
           && NextByHand(latest[id].state, stage)
        then r == Written(latest[id].(state := stage)) && ledger == old(ledger) + [latest[id].(state := stage)]
        else r.Refused? && ledger == old(ledger)
    {
      if stage != Approved && stage != BoughtExternally && stage != Declined { return Refused(BadRequest); }
      var order, latest := ReadLatest();
      if id !in latest || latest[id].kind != PurchaseOffer || latest[id].flow != flow { return Refused(NotFound); }
      var offer := latest[id];
      var allowed := match offer.state
        case Proposed => {Approved, Declined}
        case Approved => {BoughtExternally, Declined}
        case _ => {};
      if stage !in allowed { return Refused(Conflict); }
      ledger := ledger + [offer.(state := stage)];
      return Written(offer.(state := stage));
    }

    /** `set_state`: defer or decline, with a stated reason and, for a deferral, a future date. */
    method SetState(flow: string, id: Id, state: State, validRequest: bool) returns (r: Outcome)
      modifies this
      ensures var latest := Latest(old(ledger));
        if (state == Deferred || state == Declined) && validRequest
           && id in latest && latest[id].flow == flow && latest[id].kind != Identity
           && !Closed(latest[id].state) && latest[id].state != BoughtExternally
        then r == Written(latest[id].(state := state)) && ledger == old(ledger) + [latest[id].(state := state)]
        else r.Refused? && ledger == old(ledger)
    {
      if state != Deferred && state != Declined { return Refused(BadRequest); }
      if !validRequest { return Refused(BadRequest); }
      var order, latest := ReadLatest();
      if id !in latest || latest[id].flow != flow { return Refused(NotFound); }
      var held := latest[id];
      if held.kind == Identity { return Refused(Conflict); }
      if held.state == Declined || held.state == Obsolete || held.state == BoughtExternally {
        return Refused(Conflict);
      }
      ledger := ledger + [held.(state := state)];
      return Written(held.(state := state));
    }

    /** An identity answer or an approved retry campaign: one new row under a new id. */
    method RecordOther(row: Row)
      modifies this
      ensures ledger == old(ledger) + [row]
    {
      ledger := ledger + [row];
    }
  }

  lemma {:induction false} WalkStops(order: seq<Id>, latest: map<Id, Row>, row: Row, n: nat)
    requires n <= |order| && (forall id :: id in order ==> id in latest)
    requires WalkOver(order[..n], latest, row).duplicate
    ensures WalkOver(order, latest, row) == WalkOver(order[..n], latest, row)
    decreases |order|
  {
    if n < |order| {
      var m := |order| - 1;
      assert order[..m][..n] == order[..n];
      WalkStops(order[..m], latest, row, n);
    } else {
      assert order[..n] == order;
    }
  }
}
