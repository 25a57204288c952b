/** The tracking page ("acompanhamento"): the list of all shipments with a
    late marker, a status-group filter, and the two actions on the selected
    shipment, confirming delivery and deleting it. */
module Tracking {
  import opened Text
  import opened Shipments
  import opened Store
  import opened Views
  import opened Pendencies

  /** `isRemessaAtrasada`: a delivery date that parses to an instant before
      `now`, on a shipment not delivered, cancelled or rebilled. */
  predicate IsLate(s: Shipment, now: int) {
    if !Present(s.deliveryDate) then false
    else if s.status == Delivered || s.status == Cancelled || s.status == Rebilled then false
    else if s.deliveryDate.value.instant.None? then false
    else s.deliveryDate.value.instant.value < now
  }

  /** The tracking marker and the pendency detector's overdue delivery agree
      except on rebilled shipments, which only the detector flags. */
  lemma LateIffDeliveryOverdue(s: Shipment, now: int)
    ensures IsLate(s, now) <==> Applies(DeliveryOverdue, s, now) && s.status != Rebilled
  {
  }

  /** Hence a late shipment in the tracking list is reported overdue on the
      pendencies page for the same instant. */
  lemma LateShipmentIsPending(ss: seq<Shipment>, s: Shipment, now: int)
    requires s in ss && IsLate(s, now)
    ensures Pendency(s, DeliveryOverdue) in Base(ss, now)
  {
    LateIffDeliveryOverdue(s, now);
    BaseMembers(ss, now);
  }

  /** A rebilled shipment with a past delivery date is the one case the two
      pages disagree on. */
  lemma RebilledOverdueNotLate(ss: seq<Shipment>, s: Shipment, now: int)
    requires s in ss && s.status == Rebilled && Before(s.deliveryDate, now)
    ensures Pendency(s, DeliveryOverdue) in Base(ss, now) && !IsLate(s, now)
  {
    BaseMembers(ss, now);
  }

  /** The status filter's options. */
  datatype StatusGroup = AllStatuses | Waiting | Loading | Route | CancelledOnly | RebilledOnly

  predicate InGroup(g: StatusGroup, st: Status) {
    match g
    case AllStatuses => true
    case Waiting => st == AwaitingScheduling || st == Scheduled
    case Loading => st == AwaitingLoading || st == Loaded
    case Route => st == InTransit || st == Delivered
    case CancelledOnly => st == Cancelled
    case RebilledOnly => st == Rebilled
  }

  /** Each of the eight known statuses lies in exactly one group other than
      "todos"; an unknown status lies in none of them. */
  lemma GroupsPartitionStatuses(st: Status, g: StatusGroup, h: StatusGroup)
    requires g != AllStatuses && h != AllStatuses && InGroup(g, st) && InGroup(h, st)
    ensures g == h && !st.Other?
  {
  }

  lemma EveryKnownStatusHasAGroup(st: Status)
    requires !st.Other?
    ensures exists g :: g != AllStatuses && InGroup(g, st)
  {
    var g := match st
      case AwaitingScheduling => Waiting
      case Scheduled => Waiting
      case AwaitingLoading => Loading
      case Loaded => Loading
      case InTransit => Route
      case Delivered => Route
      case Cancelled => CancelledOnly
      case Rebilled => RebilledOnly;
    assert InGroup(g, st);
  }

  /** A row passes the status group, the carrier key
      (`transportadora?.trim() || "Sem transportadora"`) and the search. */
  predicate Keeps(s: Shipment, g: StatusGroup, carrier: string, query: string) {
    && InGroup(g, s.status)
    && (carrier == "todas" || CarrierKeyOr(s.carrier) == carrier)
    && SearchMatches(s, query)
  }

  function FilterShipments(ss: seq<Shipment>, g: StatusGroup, carrier: string, query: string): seq<Shipment> {
    if ss == [] then []
    else (if Keeps(ss[0], g, carrier, query) then [ss[0]] else []) + FilterShipments(ss[1..], g, carrier, query)
  }

  /** `remessasFiltradas` keeps, in order, exactly the rows that pass; its
      carrier test is the one the pendencies page uses. */
  lemma {:induction false} FilterShipmentsSpec(ss: seq<Shipment>, g: StatusGroup, carrier: string, query: string)
    ensures Subseq(FilterShipments(ss, g, carrier, query), ss)
    ensures forall s :: s in FilterShipments(ss, g, carrier, query) <==>
      s in ss && InGroup(g, s.status) && CarrierFilterKeeps(carrier, s) && SearchMatches(s, query)
  {
    if ss != [] {
      FilterShipmentsSpec(ss[1..], g, carrier, query);
      CarrierKeysAgree(ss[0].carrier);
      var rest := FilterShipments(ss[1..], g, carrier, query);
      assert ss == [ss[0]] + ss[1..];
      if Keeps(ss[0], g, carrier, query) {
        var r := [ss[0]] + rest;
        assert r[0] == ss[0] && r[1..] == rest;
        assert Subseq(r, ss);
      } else {
        assert [] + rest == rest;
      }
      forall s | s in ss ensures Keeps(s, g, carrier, query) <==>
        InGroup(g, s.status) && CarrierFilterKeeps(carrier, s) && SearchMatches(s, query) {
        CarrierKeysAgree(s.carrier);
      }
    }
  }

  lemma LowerConcat3(a: string, m: string, b: string)
    ensures Lower(a + m + b) == Lower(a) + Lower(m) + Lower(b)
  {
    LowerAppend(a, m);
    LowerAppend(a + m, b);
  }

  /** An occurrence of the lower-cased query in a lower-cased part of a
      text is an occurrence in the lower-cased text. */
  lemma ContainsLowerPart(a: string, m: string, b: string, q: string)
    requires Contains(Lower(m), Lower(q))
    ensures Contains(Lower(a + m + b), Lower(q))
  {
    LowerConcat3(a, m, b);
    ContainsInConcat(Lower(a), Lower(m), Lower(b), Lower(q));
  }

  /** A query occurring in one of the three fields matches the row. */
  lemma FieldMatchIsSearchMatch(s: Shipment, query: string)
    requires Contains(Lower(s.number), Lower(query)) || Contains(Lower(s.note), Lower(query))
             || Contains(Lower(s.client), Lower(query))
    ensures SearchMatches(s, query)
  {
    var t := SearchText(s);
    if Contains(Lower(s.number), Lower(query)) {
      assert t == [] + s.number + (" " + s.note + " " + s.client);
      ContainsLowerPart([], s.number, " " + s.note + " " + s.client, query);
    } else if Contains(Lower(s.note), Lower(query)) {
      assert t == s.number + " " + s.note + (" " + s.client);
      ContainsLowerPart(s.number + " ", s.note, " " + s.client, query);
    } else {
      assert t == s.number + " " + s.note + " " + s.client + [];
      ContainsLowerPart(s.number + " " + s.note + " ", s.client, [], query);
    }
  }

  /** The page's own copies of the two tables, which the actions patch
      locally instead of reloading. */
  class TrackingView {
    var shipments: seq<Shipment>
    var history: seq<HistoryEntry>

    constructor (ss: seq<Shipment>, hs: seq<HistoryEntry>)
      ensures shipments == ss && history == hs
    {
      shipments := ss;
      history := hs;
    }
  }

  /** `marcarComoEntregue` after the operator confirms: sets the status to
      "entregue" in the store and, when that worked, records the delivery
      (`nowLabel` is the formatted current time) and patches the page's
      list the same way. A failed history insert does not undo the status. */
  method MarkDelivered(store: Store, view: TrackingView, sel: Shipment, updateFails: bool,
                       now: int, nowLabel: string)
    returns (outcome: Outcome, logged: seq<HistoryEntry>)
    requires store.Valid()
    modifies store, view
    ensures store.Valid()
    ensures outcome == if updateFails then StoreError else Saved(logged == DeliveredEntries(sel.id, nowLabel, now))
    ensures !outcome.Saved? ==>
      && store.shipments == old(store.shipments) && store.history == old(store.history)
      && view.shipments == old(view.shipments)
    ensures outcome.Saved? ==>
      && store.shipments == UpdateWhere(old(store.shipments), sel.id, SetStatus(Delivered))
      && store.history == old(store.history) + logged
      && Subseq(logged, DeliveredEntries(sel.id, nowLabel, now))
      && view.shipments == UpdateWhere(old(view.shipments), sel.id, SetStatus(Delivered))
    ensures view.history == old(view.history)
  {
    logged := [];
    var ok := store.Update(sel.id, SetStatus(Delivered), updateFails);
    if !ok {
      return StoreError, logged;
    }
    var written := store.RecordHistory(sel.id, "entregue", "Entrega confirmada em " + nowLabel + ".", now);
    if written {
      logged := DeliveredEntries(sel.id, nowLabel, now);
    }
    view.shipments := UpdateWhere(view.shipments, sel.id, SetStatus(Delivered));
    outcome := Saved(written);
  }

  function DeliveredEntries(id: string, nowLabel: string, now: int): seq<HistoryEntry> {
    [Entry(id, "entregue", "Entrega confirmada em " + nowLabel + ".", now)]
  }

  /** Confirming delivery touches only the status of the selected row. */
  lemma DeliveredOnlyChangesStatus(ss: seq<Shipment>, id: string, i: int)
    requires 0 <= i < |ss|
    ensures var r := UpdateWhere(ss, id, SetStatus(Delivered));
      |r| == |ss| && r[i] == (if ss[i].id == id then ss[i].(status := Delivered) else ss[i])
  {
    UpdateWhereRows(ss, id, SetStatus(Delivered));
  }

  /** A delivered shipment is never late, whatever its date. */
  lemma DeliveredNeverLate(ss: seq<Shipment>, id: string, i: int, now: int)
    requires 0 <= i < |ss| && ss[i].id == id
    ensures !IsLate(UpdateWhere(ss, id, SetStatus(Delivered))[i], now)
  {
    DeliveredOnlyChangesStatus(ss, id, i);
  }

  /** `confirmarExclusaoRemessa`: deletes the shipment's history, without
      looking at the result, then the shipment; when that worked, drops the
      shipment and its entries from the page's lists. If only the second
      delete fails, the history is already gone. */
  method RemoveShipment(store: Store, view: TrackingView, sel: Shipment, deleteFails: bool)
    returns (ok: bool)
    requires store.Valid()
    modifies store, view
    ensures store.Valid()
    ensures ok == !deleteFails
    ensures store.history == old(store.history) || store.history == WithoutEntriesOf(old(store.history), sel.id)
    ensures ok && store.cascades ==> store.history == WithoutEntriesOf(old(store.history), sel.id)
    ensures store.shipments == if ok then RemoveWhere(old(store.shipments), sel.id) else old(store.shipments)
    ensures view.shipments == if ok then RemoveWhere(old(view.shipments), sel.id) else old(view.shipments)
    ensures view.history == if ok then WithoutEntriesOf(old(view.history), sel.id) else old(view.history)
  {
    var _ := store.DeleteHistoryOf(sel.id);
    WithoutEntriesOfIdempotent(old(store.history), sel.id);
    ok := store.Delete(sel.id, deleteFails);
    if ok {
      view.shipments := RemoveWhere(view.shipments, sel.id);
      view.history := WithoutEntriesOf(view.history, sel.id);
    }
  }

  /** After a delete the page's lists hold no trace of the shipment and
      every other shipment keeps its row and its whole history. */
  lemma RemovedFromView(ss: seq<Shipment>, hs: seq<HistoryEntry>, id: string, other: string)
    ensures !IdInUse(RemoveWhere(ss, id), id) && EntriesOf(WithoutEntriesOf(hs, id), id) == []
    ensures forall s :: s in ss && s.id != id ==> s in RemoveWhere(ss, id)
    ensures other != id ==> EntriesOf(WithoutEntriesOf(hs, id), other) == EntriesOf(hs, other)
  {
    RemoveWhereSpec(ss, id);
    WithoutEntriesOfSpec(hs, id, other);
  }
}
