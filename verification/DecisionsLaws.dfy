/** Safety of purchase offers over every run of decision requests. */
module DecisionsLaws {
  import opened Seqs
  import opened Ledger
  import opened Decisions

  datatype Event =
    | Offer(id: Id, flow: string, candidate: string, terms: Terms)
    | Stage(flow: string, id: Id, stage: State)
    | SetState(flow: string, id: Id, state: State)
    | Other(row: Row)

  /** New decisions get fresh random ids; requests refused before the ledger is read append nothing
      and are left out. */
  predicate Enabled(ledger: seq<Row>, e: Event) {
    match e
    case Offer(id, _, _, _) => id !in Latest(ledger)
    case Other(row) => row.id !in Latest(ledger) && row.kind != PurchaseOffer && !Closed(row.state)
    case _ => true
  }

  function Step(ledger: seq<Row>, e: Event): seq<Row> {
    var latest := Latest(ledger);
    match e
    case Offer(id, flow, candidate, terms) => OfferLedger(ledger, NewOffer(id, flow, candidate, terms))
    case Stage(flow, id, stage) =>
      if id in latest && latest[id].kind == PurchaseOffer && latest[id].flow == flow
         && NextByHand(latest[id].state, stage)
      then ledger + [latest[id].(state := stage)] else ledger
    case SetState(flow, id, state) =>
      if (state == Deferred || state == Declined) && id in latest && latest[id].flow == flow
         && latest[id].kind != Identity && !Closed(latest[id].state) && latest[id].state != BoughtExternally
      then ledger + [latest[id].(state := state)] else ledger
    case Other(row) => ledger + [row]
  }

  ghost predicate Legal(events: seq<Event>) {
    events == [] || (Legal(events[..|events| - 1]) && Enabled(Run(events[..|events| - 1]), events[|events| - 1]))
  }

  function Run(events: seq<Event>): seq<Row> {
    if events == [] then [] else Step(Run(events[..|events| - 1]), events[|events| - 1])
  }

  // ---------- the invariant ----------

  ghost predicate OneLive(latest: map<Id, Row>) {
    forall i, j, c :: i in latest && j in latest && Live(latest[i], c) && Live(latest[j], c) ==> i == j
  }

  /** How one row of a decision may follow the one before it. */
  predicate Moves(a: Row, b: Row) {
    && a.id == b.id && a.kind == b.kind && a.flow == b.flow && a.candidate == b.candidate && a.terms == b.terms
    && !Closed(a.state) && b.state != Proposed
    && (b.state == BoughtExternally ==> a.state == Approved)
    && (a.state == BoughtExternally ==> b.state == Obsolete)
    && (b.kind == PurchaseOffer && b.state == Approved ==> a.state == Proposed)
  }

  predicate Follows(latest: map<Id, Row>, row: Row) {
    if row.id in latest then Moves(latest[row.id], row)
    else (row.kind == PurchaseOffer ==> row.state == Proposed) && !Closed(row.state)
  }

  ghost predicate WellStepped(ledger: seq<Row>) {
    forall k :: 0 <= k < |ledger| ==> Follows(Latest(ledger[..k]), ledger[k])
  }

  lemma WellSteppedSnoc(ledger: seq<Row>, row: Row)
    requires WellStepped(ledger) && Follows(Latest(ledger), row)
    ensures WellStepped(ledger + [row]) && Latest(ledger + [row]) == Latest(ledger)[row.id := row]
  {
    LatestSnoc(ledger, row, Key);
    var more := ledger + [row];
    forall k | 0 <= k < |more| ensures Follows(Latest(more[..k]), more[k]) {
      if k < |ledger| {
        assert more[..k] == ledger[..k];
      } else {
        assert more[..k] == ledger;
      }
    }
  }

  // ---------- recording an offer ----------

  ghost predicate IsIndexed(order: seq<Id>, latest: map<Id, Row>) {
    Distinct(order) && forall id :: id in order ==> id in latest && latest[id].id == id
  }

  /** With at most one live offer, the walk meets it or nothing: it is the same offer and the walk
      has appended nothing, or it is superseded alone. */
  lemma {:induction false} WalkMeetsOne(order: seq<Id>, latest: map<Id, Row>, row: Row)
    requires IsIndexed(order, latest) && OneLive(latest)
    ensures forall live :: live in order && Live(latest[live], row.candidate) ==>
      WalkOver(order, latest, row) ==
        (if latest[live].terms == row.terms then Walk([], None, true)
         else Walk([Superseded(latest[live], row.id)], Some(live), false))
    ensures (forall id :: id in order ==> !Live(latest[id], row.candidate)) ==>
      WalkOver(order, latest, row) == Walk([], None, false)
  {
    if order != [] {
      var front, last := order[..|order| - 1], order[|order| - 1];
      WalkMeetsOne(front, latest, row);
      assert order[|order| - 1] == last && last !in front;
      forall live | live in order && Live(latest[live], row.candidate)
        ensures WalkOver(order, latest, row) ==
          (if latest[live].terms == row.terms then Walk([], None, true)
           else Walk([Superseded(latest[live], row.id)], Some(live), false))
      {
        if last == live {
          assert forall id :: id in front ==> id != live;
        } else {
          assert live in front;
        }
      }
    }
  }

  lemma {:induction false} WalkAppendsNothingExactlyWhen(order: seq<Id>, latest: map<Id, Row>, row: Row)
    requires forall id :: id in order ==> id in latest
    requires WalkOver(order, latest, row).duplicate
    ensures FirstLive(order, latest, row.candidate).Some?
    ensures WalkOver(order, latest, row).appended == []
       <==> FirstLive(order, latest, row.candidate).value.terms == row.terms
  {
    var front, last := order[..|order| - 1], latest[order[|order| - 1]];
    if WalkOver(front, latest, row).duplicate {
      WalkAppendsNothingExactlyWhen(front, latest, row);
    } else {
      NoDuplicateYet(front, latest, row);
    }
  }

  /** The first offer for the candidate, in recorded order, that may still be acted on. */
  function FirstLiveIn(ledger: seq<Row>, candidate: string): Option<Row> {
    OrderIsKeys(ledger);
    FirstLive(Order(ledger), Latest(ledger), candidate)
  }

  /** Over any ledger, not only a reachable one: a refused offer appends nothing if and only if the
      first live offer for the candidate is the same offer. */
  lemma RefusalAppendsNothingExactlyWhen(ledger: seq<Row>, row: Row)
    requires WalkOf(ledger, row).duplicate
    ensures FirstLiveIn(ledger, row.candidate).Some?
    ensures OfferLedger(ledger, row) == ledger <==> FirstLiveIn(ledger, row.candidate).value.terms == row.terms
  {
    OrderIsKeys(ledger);
    hide Order, Latest, WalkOver, FirstLive;
    WalkAppendsNothingExactlyWhen(Order(ledger), Latest(ledger), row);
    var appended := WalkOf(ledger, row).appended;
    assert |OfferLedger(ledger, row)| == |ledger| + |appended|;
    if appended == [] {
      assert ledger + [] + [] == ledger;
    }
  }

  function FirstLive(order: seq<Id>, latest: map<Id, Row>, candidate: string): Option<Row>
    requires forall id :: id in order ==> id in latest
  {
    if order == [] then None
    else
      var front := FirstLive(order[..|order| - 1], latest, candidate);
      var last := latest[order[|order| - 1]];
      if front.Some? then front else if Live(last, candidate) then Some(last) else None
  }

  lemma {:induction false} NoDuplicateYet(order: seq<Id>, latest: map<Id, Row>, row: Row)
    requires forall id :: id in order ==> id in latest
    requires !WalkOver(order, latest, row).duplicate
    ensures WalkOver(order, latest, row).appended == [] <==> FirstLive(order, latest, row.candidate).None?
    ensures FirstLive(order, latest, row.candidate).Some? ==>
      FirstLive(order, latest, row.candidate).value.terms != row.terms
  {
    if order != [] {
      NoDuplicateYet(order[..|order| - 1], latest, row);
    }
  }

  lemma TwoDecisions(a: Row, b: Row)
    requires a.id != b.id
    ensures Order([a, b]) == [a.id, b.id] && Latest([a, b]) == map[a.id := a, b.id := b]
  {
    assert [a, b][..1] == [a] && [a][..0] == [];
    assert Latest([]) == map[] && [] + [a] == [a] && [a] + [b] == [a, b];
    LatestSnoc([], a, Key);
    LatestSnoc([a], b, Key);
    assert Order([a]) == [] + [a.id] && [a.id] + [b.id] == [a.id, b.id];
    assert Order([a, b]) == Order([a]) + [b.id];
  }

  /** A ledger with two live offers shows why one is needed: the second is the same offer, but the walk
      has superseded the first before it gets there, so the refused call has appended a row. */
  lemma RefusalAfterAppending(row: Row, other: Terms)
    requires row.kind == PurchaseOffer && !Closed(row.state) && other != row.terms && row.id != "a" && row.id != "b"
    ensures var a, b := row.(id := "a", terms := other), row.(id := "b");
      WalkOf([a, b], row).duplicate && OfferLedger([a, b], row) == [a, b, Superseded(a, row.id)]
  {
    var a, b := row.(id := "a", terms := other), row.(id := "b");
    TwoDecisions(a, b);
    var latest := Latest([a, b]);
    assert ["a", "b"][..1] == ["a"] && ["a"][..0] == [];
    assert WalkOver(["a"], latest, row) == Walk([Superseded(a, row.id)], Some("a"), false);
    assert WalkOf([a, b], row) == Walk([Superseded(a, row.id)], Some("a"), true);
    assert [a, b] + [Superseded(a, row.id)] + [] == [a, b, Superseded(a, row.id)];
  }

  lemma IndexedLatest(ledger: seq<Row>)
    ensures IsIndexed(Order(ledger), Latest(ledger))
    ensures forall id :: id in Latest(ledger) <==> id in Order(ledger)
  {
    OrderIsKeys(ledger);
  }

  lemma NoneLiveAfter(ledger: seq<Row>, live: Id, successor: Id)
    requires WellStepped(ledger) && OneLive(Latest(ledger)) && live in Latest(ledger)
    requires Live(Latest(ledger)[live], Latest(ledger)[live].candidate) && Latest(ledger)[live].id == live
    ensures var gone := Superseded(Latest(ledger)[live], successor);
      && WellStepped(ledger + [gone]) && OneLive(Latest(ledger + [gone]))
      && Latest(ledger + [gone]).Keys == Latest(ledger).Keys
      && forall id :: id in Latest(ledger) ==> !Live(Latest(ledger + [gone])[id], gone.candidate)
  {
    WellSteppedSnoc(ledger, Superseded(Latest(ledger)[live], successor));
  }

  lemma FirstOfferStep(ledger: seq<Row>, row: Row)
    requires WellStepped(ledger) && OneLive(Latest(ledger)) && row.id !in Latest(ledger)
    requires row.kind == PurchaseOffer && row.state == Proposed
    requires forall id :: id in Latest(ledger) ==> !Live(Latest(ledger)[id], row.candidate)
    ensures WellStepped(ledger + [row]) && OneLive(Latest(ledger + [row]))
    ensures row.id in Latest(ledger + [row]) && Latest(ledger + [row])[row.id] == row
  {
    WellSteppedSnoc(ledger, row);
  }

  lemma OfferStep(ledger: seq<Row>, id: Id, flow: string, candidate: string, terms: Terms)
    requires WellStepped(ledger) && OneLive(Latest(ledger)) && id !in Latest(ledger)
    ensures var row := NewOffer(id, flow, candidate, terms);
      var after := OfferLedger(ledger, row);
      && WellStepped(after) && OneLive(Latest(after))
      && (WalkOf(ledger, row).duplicate ==> after == ledger)
      && (!WalkOf(ledger, row).duplicate ==> id in Latest(after) && Live(Latest(after)[id], candidate))
  {
    var row := NewOffer(id, flow, candidate, terms);
    var latest := Latest(ledger);
    hide OneLive, WellStepped, Follows, Latest;
    IndexedLatest(ledger);
    WalkMeetsOne(Order(ledger), latest, row);
    var w := WalkOf(ledger, row);
    var last := row.(supersedes := w.supersedes);
    if live :| live in latest && Live(latest[live], candidate) {
      assert live in Order(ledger);
      if latest[live].terms != terms {
        var gone := Superseded(latest[live], id);
        NoneLiveAfter(ledger, live, id);
        FirstOfferStep(ledger + [gone], last);
        assert OfferLedger(ledger, row) == ledger + [gone] + [last];
      } else {
        assert ledger + [] + [] == ledger;
      }
    } else {
      FirstOfferStep(ledger, last);
      assert OfferLedger(ledger, row) == ledger + [last] by {
        assert ledger + [] + [last] == ledger + [last];
      }
    }
  }

  lemma RestatedStep(ledger: seq<Row>, row: Row)
    requires WellStepped(ledger) && OneLive(Latest(ledger)) && Follows(Latest(ledger), row)
    requires row.kind == PurchaseOffer ==> row.id in Latest(ledger)
    ensures WellStepped(ledger + [row]) && OneLive(Latest(ledger + [row]))
  {
    WellSteppedSnoc(ledger, row);
  }

  lemma StepKeepsInvariant(ledger: seq<Row>, e: Event)
    requires WellStepped(ledger) && OneLive(Latest(ledger)) && Enabled(ledger, e)
    ensures WellStepped(Step(ledger, e)) && OneLive(Latest(Step(ledger, e)))
  {
    OrderIsKeys(ledger);
    hide WellStepped, OneLive, Latest, Order;
    match e
    case Offer(id, flow, candidate, terms) => OfferStep(ledger, id, flow, candidate, terms);
    case Stage(flow, id, stage) =>
      if Step(ledger, e) != ledger { RestatedStep(ledger, Latest(ledger)[id].(state := stage)); }
    case SetState(flow, id, state) =>
      if Step(ledger, e) != ledger { RestatedStep(ledger, Latest(ledger)[id].(state := state)); }
    case Other(row) => RestatedStep(ledger, row);
  }

  /** In every run, each candidate has at most one offer outside obsolete and declined. */
  lemma {:induction false} AtMostOneLiveOffer(events: seq<Event>)
    requires Legal(events)
    ensures WellStepped(Run(events)) && OneLive(Latest(Run(events)))
  {
    if events != [] {
      AtMostOneLiveOffer(events[..|events| - 1]);
      StepKeepsInvariant(Run(events[..|events| - 1]), events[|events| - 1]);
    }
  }

  /** In every run, a refused offer appends nothing. */
  lemma RefusedOfferAppendsNothing(events: seq<Event>, id: Id, flow: string, candidate: string, terms: Terms)
    requires Legal(events) && id !in Latest(Run(events))
    requires WalkOf(Run(events), NewOffer(id, flow, candidate, terms)).duplicate
    ensures OfferLedger(Run(events), NewOffer(id, flow, candidate, terms)) == Run(events)
  {
    AtMostOneLiveOffer(events);
    OfferStep(Run(events), id, flow, candidate, terms);
  }

  lemma {:induction false} NothingFollowsClosed(ledger: seq<Row>, i: nat, k: nat)
    requires WellStepped(ledger) && i < k < |ledger| && ledger[i].id == ledger[k].id
    ensures !Closed(ledger[i].state)
    decreases k
  {
    var j := LatestIsLast(ledger[..k], Key, ledger[k].id);
    assert Follows(Latest(ledger[..k]), ledger[k]);
    assert ledger[..k][i] == ledger[i];
    if i < j {
      NothingFollowsClosed(ledger, i, j);
    }
  }

  lemma BoughtFollowsApproved(ledger: seq<Row>, k: nat) returns (j: nat)
    requires WellStepped(ledger) && k < |ledger| && ledger[k].state == BoughtExternally
    requires ledger[k].kind == PurchaseOffer
    ensures j < k && ledger[j].id == ledger[k].id && ledger[j].state == Approved
    ensures ledger[j].candidate == ledger[k].candidate && ledger[j].terms == ledger[k].terms
    ensures forall m :: j < m < k ==> ledger[m].id != ledger[k].id
  {
    assert Follows(Latest(ledger[..k]), ledger[k]);
    var i := LatestIsLast(ledger[..k], Key, ledger[k].id);
    j := i;
    forall m | j < m < k ensures ledger[m].id != ledger[k].id {
      assert ledger[..k][m] == ledger[m];
    }
  }

  /** In every run, obsolete and declined are final: no later row of the same decision exists. */
  lemma ClosedIsFinal(events: seq<Event>, i: nat, k: nat)
    requires Legal(events) && i < k < |Run(events)| && Run(events)[i].id == Run(events)[k].id
    ensures !Closed(Run(events)[i].state)
  {
    hide Run, Legal, OneLive;
    AtMostOneLiveOffer(events);
    NothingFollowsClosed(Run(events), i, k);
  }

  /** In every run, a purchase is recorded only when the row before it of the same offer, on the same
      terms, is an approval. */
  lemma BoughtOnlyFromApproved(events: seq<Event>, k: nat) returns (j: nat)
    requires Legal(events) && k < |Run(events)|
    requires Run(events)[k].kind == PurchaseOffer && Run(events)[k].state == BoughtExternally
    ensures var ledger := Run(events);
      && j < k && ledger[j].id == ledger[k].id && ledger[j].state == Approved
      && ledger[j].candidate == ledger[k].candidate && ledger[j].terms == ledger[k].terms
      && forall m :: j < m < k ==> ledger[m].id != ledger[k].id
  {
    hide Run, Legal, OneLive;
    AtMostOneLiveOffer(events);
    j := BoughtFollowsApproved(Run(events), k);
  }

  // ---------- what one offer does ----------

  /** The decision's last row is an offer for the candidate that may still be acted on. */
  predicate Pending(latest: map<Id, Row>, id: Id, candidate: string) {
    id in latest && latest[id].kind == PurchaseOffer && latest[id].candidate == candidate
    && latest[id].state != Declined && latest[id].state != Obsolete
  }

  /** In every run, a new offer is refused exactly when the pending offer for its candidate, if there is
      one, has the same terms. Otherwise it is the pending one: the offer it supersedes is obsolete and
      names it, it names that offer, and no other decision changes. */
  lemma OfferTakesOver(events: seq<Event>, id: Id, flow: string, candidate: string, terms: Terms)
    requires Legal(events) && id !in Latest(Run(events))
    ensures var ledger := Run(events); var after := OfferLedger(ledger, NewOffer(id, flow, candidate, terms));
      var was, now := Latest(ledger), Latest(after);
      if exists earlier :: Pending(was, earlier, candidate) && was[earlier].terms == terms then after == ledger
      else
        && id in now
        && now[id].(supersedes := None) == Row(id, PurchaseOffer, flow, candidate, terms, Proposed, None, None)
        && (forall earlier :: Pending(was, earlier, candidate) ==>
              earlier in now && now[earlier] == was[earlier].(state := Obsolete, supersededBy := Some(id))
              && now[id].supersedes == Some(earlier))
        && ((forall earlier :: !Pending(was, earlier, candidate)) ==> now[id].supersedes == None)
        && (forall other :: other != id && !Pending(was, other, candidate) ==>
              (other in now <==> other in was) && (other in was ==> now[other] == was[other]))
  {
    AtMostOneLiveOffer(events);
    OfferOutcome(Run(events), id, flow, candidate, terms);
  }

  lemma OfferOutcome(ledger: seq<Row>, id: Id, flow: string, candidate: string, terms: Terms)
    requires OneLive(Latest(ledger)) && id !in Latest(ledger)
    ensures var row := NewOffer(id, flow, candidate, terms);
      var after, was := OfferLedger(ledger, row), Latest(ledger);
      && (forall earlier :: Pending(was, earlier, candidate) ==>
            if was[earlier].terms == terms then after == ledger
            else Latest(after) == was[earlier := Superseded(was[earlier], id)][id := row.(supersedes := Some(earlier))])
      && ((forall earlier :: !Pending(was, earlier, candidate)) ==> Latest(after) == was[id := row])
  {
    var row, was := NewOffer(id, flow, candidate, terms), Latest(ledger);
    hide OneLive, Latest;
    IndexedLatest(ledger);
    WalkMeetsOne(Order(ledger), was, row);
    if earlier :| Pending(was, earlier, candidate) {
      assert earlier in Order(ledger) && Live(was[earlier], candidate);
      if was[earlier].terms == terms {
        assert ledger + [] + [] == ledger;
      } else {
        var gone, last := Superseded(was[earlier], id), row.(supersedes := Some(earlier));
        assert ledger + [gone] + [last] == OfferLedger(ledger, row);
        LatestAppended(ledger, gone);
        LatestAppended(ledger + [gone], last);
      }
      assert forall x :: Pending(was, x, candidate) ==> x == earlier by { OnlyOnePending(was, candidate); }
    } else {
      assert forall x :: x in Order(ledger) ==> !Live(was[x], candidate) by {
        forall x | x in Order(ledger) ensures !Live(was[x], candidate) {
          assert !Pending(was, x, candidate);
        }
      }
      assert ledger + [] + [row] == OfferLedger(ledger, row) == ledger + [row];
      LatestAppended(ledger, row);
    }
  }

  lemma OnlyOnePending(latest: map<Id, Row>, candidate: string)
    requires OneLive(latest)
    ensures forall a, b :: Pending(latest, a, candidate) && Pending(latest, b, candidate) ==> a == b
  {
    forall a, b | Pending(latest, a, candidate) && Pending(latest, b, candidate) ensures a == b {
      assert Live(latest[a], candidate) && Live(latest[b], candidate);
    }
  }

  lemma LatestAppended(ledger: seq<Row>, row: Row)
    ensures Latest(ledger + [row]) == Latest(ledger)[row.id := row]
  {
    LatestSnoc(ledger, row, Key);
  }

  // ---------- what a request by hand does ----------

  /** A manual stage is recorded exactly when the decision is an offer of that flow, last proposed and now
      approved or declined, or last approved and now bought or declined; nothing else of it changes. */
  lemma StageExactlyWhen(ledger: seq<Row>, flow: string, id: Id, stage: State)
    ensures var latest, after := Latest(ledger), Step(ledger, Stage(flow, id, stage));
      var may := id in latest && latest[id].kind == PurchaseOffer && latest[id].flow == flow
        && ((latest[id].state == Proposed && stage in {Approved, Declined})
            || (latest[id].state == Approved && stage in {BoughtExternally, Declined}));
      && (may ==> after == ledger + [latest[id].(state := stage)]
                  && Latest(after) == latest[id := latest[id].(state := stage)])
      && (!may ==> after == ledger)
  {
    OrderIsKeys(ledger);
    if id in Latest(ledger) { LatestAppended(ledger, Latest(ledger)[id].(state := stage)); }
    hide Latest;
  }

  /** A deferral or decline is recorded exactly when the decision of that flow, whatever its kind but an
      identity answer, is neither closed nor bought. */
  lemma DeferralExactlyWhen(ledger: seq<Row>, flow: string, id: Id, state: State)
    ensures var latest, after := Latest(ledger), Step(ledger, Event.SetState(flow, id, state));
      var may := state in {Deferred, Declined} && id in latest && latest[id].flow == flow
        && latest[id].kind != Identity && latest[id].state !in {Declined, Obsolete, BoughtExternally};
      && (may ==> after == ledger + [latest[id].(state := state)]
                  && Latest(after) == latest[id := latest[id].(state := state)])
      && (!may ==> after == ledger)
  {
    OrderIsKeys(ledger);
    if id in Latest(ledger) { LatestAppended(ledger, Latest(ledger)[id].(state := state)); }
    hide Latest;
  }
}
