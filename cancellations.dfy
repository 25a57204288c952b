/** The cancellations page ("cancelados"): the cancelled shipments, each
    annotated with when and by whom it was cancelled according to its
    history, the filters over that list, the seven-day counter and the
    restore action. */
module Cancellations {
  import opened Text
  import opened Shipments
  import opened Store
  import opened Views

  /** When and by whom a cancellation entry was written. */
  datatype Info = Info(at: int, user: Option<string>)

  function InfoOf(h: HistoryEntry): Info {
    Info(h.createdAt, h.user)
  }

  /** A history entry counts as a cancellation when its status, lower-cased
      and trimmed, is "cancelada". */
  predicate IsCancellation(h: HistoryEntry) {
    Trim(Lower(h.status)) == "cancelada"
  }

  /** A cancellation entry of the shipment whose trimmed id is `key`. */
  predicate CancellationOf(h: HistoryEntry, key: string) {
    IsCancellation(h) && Trim(h.shipmentId) == key
  }

  /** The information the fold keeps for `key` after reading `hs` in order:
      the first cancellation entry seen, replaced by a later one only when
      that one is strictly newer. */
  function Latest(hs: seq<HistoryEntry>, key: string): Option<Info> {
    if hs == [] then None
    else
      var prev := Latest(hs[..|hs| - 1], key);
      var h := hs[|hs| - 1];
      if !CancellationOf(h, key) then prev
      else if prev.None? then Some(InfoOf(h))
      else if h.createdAt > prev.value.at then Some(InfoOf(h))
      else prev
  }

  /** Position `i` holds the newest cancellation entry of `key`, and no
      earlier entry of `key` is as new. */
  predicate FirstNewest(hs: seq<HistoryEntry>, key: string, i: int) {
    && 0 <= i < |hs| && CancellationOf(hs[i], key)
    && (forall j :: 0 <= j < |hs| && CancellationOf(hs[j], key) ==> hs[j].createdAt <= hs[i].createdAt)
    && (forall j :: 0 <= j < i && CancellationOf(hs[j], key) ==> hs[j].createdAt < hs[i].createdAt)
  }

  /** The fold finds nothing exactly when `key` has no cancellation entry. */
  lemma {:induction false} LatestNone(hs: seq<HistoryEntry>, key: string)
    ensures Latest(hs, key).None? <==> forall k :: 0 <= k < |hs| ==> !CancellationOf(hs[k], key)
  {
    if hs != [] {
      var n := |hs| - 1;
      LatestNone(hs[..n], key);
      assert forall k :: 0 <= k < n ==> hs[..n][k] == hs[k];
    }
  }

  /** The kept position stays kept when an older or equally old entry, or
      an entry of another shipment, is appended. */
  lemma FirstNewestKept(hs: seq<HistoryEntry>, key: string, i: int)
    requires hs != [] && FirstNewest(hs[..|hs| - 1], key, i)
    requires !CancellationOf(hs[|hs| - 1], key) || hs[|hs| - 1].createdAt <= hs[i].createdAt
    ensures FirstNewest(hs, key, i)
  {
    var n := |hs| - 1;
    var init := hs[..n];
    assert init[i] == hs[i];
    forall j | 0 <= j < |hs| && CancellationOf(hs[j], key) ensures hs[j].createdAt <= hs[i].createdAt {
      if j < n {
        assert init[j] == hs[j];
      }
    }
    forall j | 0 <= j < i && CancellationOf(hs[j], key) ensures hs[j].createdAt < hs[i].createdAt {
      assert init[j] == hs[j];
    }
  }

  /** An appended entry newer than every earlier one of `key` is kept. */
  lemma FirstNewestLast(hs: seq<HistoryEntry>, key: string)
    requires hs != [] && CancellationOf(hs[|hs| - 1], key)
    requires forall k :: 0 <= k < |hs| - 1 && CancellationOf(hs[k], key) ==> hs[k].createdAt < hs[|hs| - 1].createdAt
    ensures FirstNewest(hs, key, |hs| - 1)
  {
  }

  /** Otherwise the fold keeps the newest cancellation entry of `key`, the
      first of them on a tie. */
  lemma {:induction false} LatestSpec(hs: seq<HistoryEntry>, key: string)
    ensures Latest(hs, key).Some? ==> exists i :: FirstNewest(hs, key, i) && Latest(hs, key).value == InfoOf(hs[i])
  {
    if hs != [] {
      var n := |hs| - 1;
      var init := hs[..n];
      var h := hs[n];
      LatestSpec(init, key);
      LatestNone(init, key);
      assert forall k :: 0 <= k < n ==> init[k] == hs[k];
      var prev := Latest(init, key);
      if prev.Some? {
        var i :| FirstNewest(init, key, i) && prev.value == InfoOf(init[i]);
        if !CancellationOf(h, key) || h.createdAt <= prev.value.at {
          FirstNewestKept(hs, key, i);
        } else {
          FirstNewestLast(hs, key);
        }
      } else if CancellationOf(h, key) {
        FirstNewestLast(hs, key);
      }
    }
  }

  /** The fold over the history in `carregarRemessasCanceladas`: one map
      entry per cancelled shipment key, updated entry by entry. */
  method FoldCancellations(hs: seq<HistoryEntry>) returns (m: map<string, Info>)
    ensures forall key :: key in m <==> Latest(hs, key).Some?
    ensures forall key :: key in m ==> m[key] == Latest(hs, key).value
  {
    m := map[];
    var i := 0;
    while i < |hs|
      invariant 0 <= i <= |hs|
      invariant forall key :: key in m <==> Latest(hs[..i], key).Some?
      invariant forall key :: key in m ==> m[key] == Latest(hs[..i], key).value
    {
      var h := hs[i];
      assert hs[..i + 1][..i] == hs[..i] && hs[..i + 1][i] == h;
      if Trim(Lower(h.status)) == "cancelada" {
        var key := Trim(h.shipmentId);
        if key !in m {
          m := m[key := InfoOf(h)];
        } else if h.createdAt > m[key].at {
          m := m[key := InfoOf(h)];
        }
      }
      i := i + 1;
    }
    assert hs[..i] == hs;
  }

  /** A row of the list: the shipment with `cancelada_em` and
      `cancelada_por`. */
  datatype CancelledRow = CancelledRow(shipment: Shipment, cancelledAt: Option<int>, cancelledBy: Option<string>)

  function Annotate1(s: Shipment, m: map<string, Info>): CancelledRow {
    var key := Trim(s.id);
    if key in m then CancelledRow(s, Some(m[key].at), m[key].user) else CancelledRow(s, None, None)
  }

  /** `comCancelamento`: every listed shipment, in order, with the data of
      its kept cancellation entry or nulls. */
  function Annotate(ss: seq<Shipment>, m: map<string, Info>): (r: seq<CancelledRow>)
  {
    seq(|ss|, i requires 0 <= i < |ss| => Annotate1(ss[i], m))
  }

  /** Annotating with the folded map keeps the list and gives each shipment
      the date and author of its newest cancellation entry, or nulls when
      it has none. */
  lemma AnnotateSpec(ss: seq<Shipment>, hs: seq<HistoryEntry>, m: map<string, Info>, i: int)
    requires forall key :: key in m <==> Latest(hs, key).Some?
    requires forall key :: key in m ==> m[key] == Latest(hs, key).value
    requires 0 <= i < |ss|
    ensures |Annotate(ss, m)| == |ss| && Annotate(ss, m)[i].shipment == ss[i]
    ensures Annotate(ss, m)[i].cancelledAt.None? <==>
      forall k :: 0 <= k < |hs| ==> !CancellationOf(hs[k], Trim(ss[i].id))
    ensures Annotate(ss, m)[i].cancelledAt.Some? ==>
      exists k :: FirstNewest(hs, Trim(ss[i].id), k)
        && Annotate(ss, m)[i].cancelledAt.value == hs[k].createdAt
        && Annotate(ss, m)[i].cancelledBy == hs[k].user
  {
    LatestNone(hs, Trim(ss[i].id));
    LatestSpec(hs, Trim(ss[i].id));
  }

  // ------------------------------------------------------------------
  // Filters
  // ------------------------------------------------------------------

  /** The text search: the trimmed, lower-cased query occurs in one of the
      three fields, each lower-cased. */
  predicate TextMatches(s: Shipment, query: string) {
    var q := Lower(Trim(query));
    Trim(query) == "" || Contains(Lower(s.number), q) || Contains(Lower(s.note), q) || Contains(Lower(s.client), q)
  }

  /** The period filter. A bound is set when its input is not empty; its
      instant is the start (00:00:00) or the end (23:59:59) of the chosen
      day. With a bound set, a row without a cancellation date is out; a
      dated row is out when before the start or after the end. */
  predicate InPeriod(r: CancelledRow, start: Stamp, end: Stamp) {
    if (start.text != "" || end.text != "") && r.cancelledAt.None? then false
    else if r.cancelledAt.None? then true
    else
      && !(start.text != "" && start.instant.Some? && r.cancelledAt.value < start.instant.value)
      && !(end.text != "" && end.instant.Some? && r.cancelledAt.value > end.instant.value)
  }

  predicate Keeps(r: CancelledRow, carrier: string, query: string, start: Stamp, end: Stamp) {
    && CarrierFilterKeeps(carrier, r.shipment)
    && TextMatches(r.shipment, query)
    && InPeriod(r, start, end)
  }

  function FilterCancelled(rs: seq<CancelledRow>, carrier: string, query: string, start: Stamp, end: Stamp): seq<CancelledRow> {
    if rs == [] then []
    else (if Keeps(rs[0], carrier, query, start, end) then [rs[0]] else [])
         + FilterCancelled(rs[1..], carrier, query, start, end)
  }

  /** The filtered list keeps, in order, exactly the rows that pass. */
  lemma {:induction false} FilterCancelledSpec(rs: seq<CancelledRow>, carrier: string, query: string, start: Stamp, end: Stamp)
    ensures Subseq(FilterCancelled(rs, carrier, query, start, end), rs)
    ensures forall r :: r in FilterCancelled(rs, carrier, query, start, end) <==> r in rs && Keeps(r, carrier, query, start, end)
  {
    if rs != [] {
      FilterCancelledSpec(rs[1..], carrier, query, start, end);
      var rest := FilterCancelled(rs[1..], carrier, query, start, end);
      assert rs == [rs[0]] + rs[1..];
      if Keeps(rs[0], carrier, query, start, end) {
        var r := [rs[0]] + rest;
        assert r[0] == rs[0] && r[1..] == rest;
        assert Subseq(r, rs);
      } else {
        assert [] + rest == rest;
      }
    }
  }

  /** With valid bounds the period is closed: a dated row passes exactly
      when its date lies between the two instants, both included; with
      either bound set, undated rows never pass. */
  lemma PeriodIsClosedInterval(r: CancelledRow, start: Stamp, end: Stamp)
    requires start.text != "" && end.text != "" && start.instant.Some? && end.instant.Some?
    ensures InPeriod(r, start, end) <==>
      r.cancelledAt.Some? && start.instant.value <= r.cancelledAt.value <= end.instant.value
  {
  }

  /** Whitespace around the query does not change the text search. */
  lemma TextSearchIgnoresSurroundingSpace(s: Shipment, query: string)
    ensures TextMatches(s, Trim(query)) == TextMatches(s, query)
  {
    TrimIdempotent(query);
  }

  /** `totalUltimos7Dias`: the rows cancelled in the closed interval from
      `weekAgo` (seven calendar days before `now`) to `now`. */
  function Last7Days(rs: seq<CancelledRow>, now: int, weekAgo: int): (n: nat)
    ensures n <= |rs|
  {
    if rs == [] then 0
    else (if rs[0].cancelledAt.Some? && weekAgo <= rs[0].cancelledAt.value <= now then 1 else 0)
         + Last7Days(rs[1..], now, weekAgo)
  }

  /** The seven-day counter is the size of the list filtered by the period
      from `weekAgo` to `now`, with no carrier or text filter. */
  lemma {:induction false} Last7DaysIsPeriodFilter(rs: seq<CancelledRow>, now: int, weekAgo: int, start: Stamp, end: Stamp)
    requires start.text != "" && end.text != "" && start.instant == Some(weekAgo) && end.instant == Some(now)
    ensures Last7Days(rs, now, weekAgo) == |FilterCancelled(rs, "todas", "", start, end)|
  {
    if rs != [] {
      Last7DaysIsPeriodFilter(rs[1..], now, weekAgo, start, end);
      PeriodIsClosedInterval(rs[0], start, end);
      assert Trim("") == "";
    }
  }

  /** `handleRestaurarRemessa` after the operator confirms: puts the
      shipment back to "aguardando_agendamento" and, if that worked, records
      the restore; the insert's error is not looked at. */
  method Restore(store: Store, sel: Shipment, updateFails: bool, now: int)
    returns (outcome: Outcome, logged: seq<HistoryEntry>)
    requires store.Valid()
    modifies store
    ensures store.Valid()
    ensures outcome == if updateFails then StoreError else Saved(logged == RestoreEntries(sel.id, now))
    ensures !outcome.Saved? ==> store.shipments == old(store.shipments) && store.history == old(store.history)
    ensures outcome.Saved? ==>
      && store.shipments == UpdateWhere(old(store.shipments), sel.id, SetStatus(AwaitingScheduling))
      && store.history == old(store.history) + logged
      && Subseq(logged, RestoreEntries(sel.id, now))
  {
    logged := [];
    var ok := store.Update(sel.id, SetStatus(AwaitingScheduling), updateFails);
    if !ok {
      return StoreError, logged;
    }
    var written := store.RecordHistory(sel.id, "restaurada", "Remessa restaurada a partir do status cancelado.", now);
    if written {
      logged := RestoreEntries(sel.id, now);
    }
    outcome := Saved(written);
  }

  function RestoreEntries(id: string, now: int): seq<HistoryEntry> {
    [Entry(id, "restaurada", "Remessa restaurada a partir do status cancelado.", now)]
  }

  /** The list shows only cancelled shipments, so a restored one leaves it
      on the next load, and a restore entry is not a cancellation. */
  lemma RestoreLeavesList(ss: seq<Shipment>, id: string, i: int, now: int)
    requires 0 <= i < |ss| && ss[i].id == id
    ensures UpdateWhere(ss, id, SetStatus(AwaitingScheduling))[i].status != Cancelled
    ensures !IsCancellation(RestoreEntries(id, now)[0])
  {
    UpdateWhereRows(ss, id, SetStatus(AwaitingScheduling));
    var t := "restaurada";
    assert Lower(t) == t;
    assert TrimStart(t) == t;
    assert TrimEnd(t) == t;
  }
}
