/** The calendar page ("calendario"): the month on display and how it
    moves, the loading and delivery events placed on its days, and the
    alerts listed above it. Dates are compared as the `YYYY-MM-DD` prefix of
    the stored text against today's key. */
module Calendar {
  import opened Text
  import opened Shipments
  import opened Pendencies
  import Store
  import opened Tracking

  // ------------------------------------------------------------------
  // Month navigation
  // ------------------------------------------------------------------

  /** `mudarMes`: the month index moves by `delta`; past December it
      becomes January of the next year, before January December of the
      previous year. */
  function Shifted(month: int, year: int, delta: int): (r: (int, int))
    ensures 0 <= r.0 <= 11
  {
    var m := month + delta;
    if m > 11 then (0, year + 1)
    else if m < 0 then (11, year - 1)
    else (m, year)
  }

  /** One step forward or back moves the absolute month count
      `12 * year + month` by exactly that step. */
  lemma ShiftedIsOneMonth(month: int, year: int, delta: int)
    requires 0 <= month <= 11 && (delta == 1 || delta == -1)
    ensures var r := Shifted(month, year, delta); 12 * r.1 + r.0 == 12 * year + month + delta
  {
  }

  /** Going forward and back again returns to the same month. */
  lemma ShiftedForthAndBack(month: int, year: int)
    requires 0 <= month <= 11
    ensures var r := Shifted(month, year, 1); Shifted(r.0, r.1, -1) == (month, year)
  {
  }

  /** The month on display. */
  class MonthCursor {
    var month: int
    var year: int

    predicate Valid()
      reads this
    {
      0 <= month <= 11
    }

    /** Starts at today's month, which `getMonth()` gives as 0..11. */
    constructor (month0: int, year0: int)
      requires 0 <= month0 <= 11
      ensures Valid() && month == month0 && year == year0
    {
      month := month0;
      year := year0;
    }

    method Shift(delta: int)
      modifies this
      ensures Valid()
      ensures (month, year) == Shifted(old(month), old(year), delta)
    {
      var newMonth := month + delta;
      var newYear := year;
      if newMonth > 11 {
        newMonth := 0;
        newYear := newYear + 1;
      } else if newMonth < 0 {
        newMonth := 11;
        newYear := newYear - 1;
      }
      month := newMonth;
      year := newYear;
    }
  }

  // ------------------------------------------------------------------
  // Days of the month
  // ------------------------------------------------------------------

  /** `new Date(y, ...)` reads a year 0..99 as 1900..1999. */
  function FullYear(y: int): int {
    if 0 <= y <= 99 then 1900 + y else y
  }

  predicate Leap(y: int) {
    (y % 4 == 0 && y % 100 != 0) || y % 400 == 0
  }

  function MonthLength(m: int, leap: bool): int {
    if m == 1 then (if leap then 29 else 28)
    else if m == 3 || m == 5 || m == 8 || m == 10 then 30
    else 31
  }

  /** `new Date(year, month + 1, 0).getDate()`: the last day of `month`,
      the month index rolling over into neighbouring years as `Date` does. */
  function DaysInMonth(month: int, year: int): (n: int)
    ensures 28 <= n <= 31
  {
    MonthLength(month % 12, Leap(FullYear(year) + month / 12))
  }

  /** February has 29 days exactly in leap years, and a year's months add
      up to 366 or 365 days accordingly. */
  lemma DaysInYear(year: int)
    requires !(0 <= year <= 99)
    ensures DaysInMonth(1, year) == 29 <==> Leap(year)
    ensures DaysInMonth(0, year) + DaysInMonth(1, year) + DaysInMonth(2, year) + DaysInMonth(3, year)
          + DaysInMonth(4, year) + DaysInMonth(5, year) + DaysInMonth(6, year) + DaysInMonth(7, year)
          + DaysInMonth(8, year) + DaysInMonth(9, year) + DaysInMonth(10, year) + DaysInMonth(11, year)
          == if Leap(year) then 366 else 365
  {
  }

  /** `diasNoMes`: the days 1..n. */
  function DayList(n: nat): (r: seq<int>)
    ensures |r| == n
  {
    seq(n, i requires 0 <= i < n => i + 1)
  }

  lemma DayListIsOneToN(n: nat, d: int)
    ensures d in DayList(n) <==> 1 <= d <= n
  {
    if 1 <= d <= n {
      assert DayList(n)[d - 1] == d;
    }
  }

  /** The day cells the grid draws for the month on display: `diasNoMes`
      built from `ultimoDia` of `obterDiasDoMes(month, year)`. */
  function DaysShown(month: int, year: int): (r: seq<int>)
    ensures |r| == DaysInMonth(month, year)
  {
    DayList(DaysInMonth(month, year))
  }

  /** The grid shows day `d` exactly when `d` is a day of that month, so it
      has 28 to 31 cells and ends on the month's last day. */
  lemma DaysShownSpec(month: int, year: int, d: int)
    ensures d in DaysShown(month, year) <==> 1 <= d <= DaysInMonth(month, year)
    ensures DaysShown(month, year)[|DaysShown(month, year)| - 1] == DaysInMonth(month, year)
  {
    DayListIsOneToN(DaysInMonth(month, year), d);
  }

  /** February's grid has a 29th cell exactly in leap years. */
  lemma DaysShownFebruary(year: int)
    requires !(0 <= year <= 99)
    ensures 29 in DaysShown(1, year) <==> Leap(year)
  {
    DaysShownSpec(1, year, 29);
    DaysInYear(year);
  }

  // ------------------------------------------------------------------
  // Events
  // ------------------------------------------------------------------

  datatype EventKind = LoadingEvent | DeliveryEvent   // "carregamento" | "entrega"

  datatype Event = Event(id: string, kind: EventKind, date: string, title: string,
                         description: string, cancelled: bool, finished: bool)

  function Suffix(k: EventKind): string {
    match k
    case LoadingEvent => "-carregamento"
    case DeliveryEvent => "-entrega"
  }

  /** `r.transportadora || "Não definida"`. */
  function CarrierOrUndefined(c: Option<string>): string {
    if c.Some? && c.value != "" then c.value else "Não definida"
  }

  function MakeEvent(s: Shipment, k: EventKind, date: string): Event {
    Event(s.id + Suffix(k), k, date,
          (if k == LoadingEvent then "Carregamento - " else "Entrega - ") + s.client,
          "Remessa " + s.number + ", Nota " + s.note + "\nTransportadora: " + CarrierOrUndefined(s.carrier),
          s.status == Cancelled, Finished(s))
  }

  /** The events of one shipment: loading first, then delivery, each only
      when its date column is truthy. */
  function EventsOf(s: Shipment): seq<Event> {
    (if Present(s.loadingDate) then [MakeEvent(s, LoadingEvent, s.loadingDate.value.text)] else [])
    + (if Present(s.deliveryDate) then [MakeEvent(s, DeliveryEvent, s.deliveryDate.value.text)] else [])
  }

  function AllEvents(ss: seq<Shipment>): seq<Event> {
    if ss == [] then [] else AllEvents(ss[..|ss| - 1]) + EventsOf(ss[|ss| - 1])
  }

  /** `gerarEventos`: one pass over the shipments pushing their events. */
  method GenerateEvents(ss: seq<Shipment>) returns (evts: seq<Event>)
    ensures evts == AllEvents(ss)
  {
    evts := [];
    var i := 0;
    while i < |ss|
      invariant 0 <= i <= |ss|
      invariant evts == AllEvents(ss[..i])
    {
      var r := ss[i];
      if Present(r.loadingDate) {
        evts := evts + [MakeEvent(r, LoadingEvent, r.loadingDate.value.text)];
      }
      if Present(r.deliveryDate) {
        evts := evts + [MakeEvent(r, DeliveryEvent, r.deliveryDate.value.text)];
      }
      assert ss[..i + 1][..i] == ss[..i];
      assert AllEvents(ss[..i + 1]) == AllEvents(ss[..i]) + EventsOf(r);
      i := i + 1;
    }
    assert ss[..i] == ss;
  }

  /** The date column an event of kind `k` comes from. */
  function DateOf(s: Shipment, k: EventKind): Option<Stamp> {
    if k == LoadingEvent then s.loadingDate else s.deliveryDate
  }

  /** `e` is the event of kind `k` of a shipment whose `k` date is set. */
  predicate EventFor(s: Shipment, k: EventKind, e: Event) {
    Present(DateOf(s, k)) && e == MakeEvent(s, k, DateOf(s, k).value.text)
  }

  lemma EventsOfMembers(s: Shipment, e: Event)
    ensures e in EventsOf(s) <==> EventFor(s, LoadingEvent, e) || EventFor(s, DeliveryEvent, e)
  {
  }

  lemma {:induction false} EventsFromShipments(ss: seq<Shipment>, e: Event)
    requires e in AllEvents(ss)
    ensures exists i, k :: 0 <= i < |ss| && EventFor(ss[i], k, e)
  {
    var n := |ss| - 1;
    var init := ss[..n];
    if e in AllEvents(init) {
      EventsFromShipments(init, e);
      var i, k :| 0 <= i < |init| && EventFor(init[i], k, e);
      assert init[i] == ss[i];
    } else {
      EventsOfMembers(ss[n], e);
      if EventFor(ss[n], LoadingEvent, e) {
        assert EventFor(ss[n], LoadingEvent, e);
      } else {
        assert EventFor(ss[n], DeliveryEvent, e);
      }
    }
  }

  lemma {:induction false} ShipmentsHaveEvents(ss: seq<Shipment>, i: int, k: EventKind, e: Event)
    requires 0 <= i < |ss| && EventFor(ss[i], k, e)
    ensures e in AllEvents(ss)
  {
    var n := |ss| - 1;
    var init := ss[..n];
    assert AllEvents(ss) == AllEvents(init) + EventsOf(ss[n]);
    if i < n {
      assert init[i] == ss[i];
      ShipmentsHaveEvents(init, i, k, e);
      assert e in AllEvents(init);
    } else {
      EventsOfMembers(ss[n], e);
      assert e in EventsOf(ss[n]);
    }
  }

  /** Every event comes from a listed shipment with that date set, and
      every such shipment has its event. */
  lemma EventsMembers(ss: seq<Shipment>, e: Event)
    ensures e in AllEvents(ss) <==> exists i, k :: 0 <= i < |ss| && EventFor(ss[i], k, e)
  {
    if e in AllEvents(ss) {
      EventsFromShipments(ss, e);
    }
    if exists i, k :: 0 <= i < |ss| && EventFor(ss[i], k, e) {
      var i, k :| 0 <= i < |ss| && EventFor(ss[i], k, e);
      ShipmentsHaveEvents(ss, i, k, e);
    }
  }

  /** The id is the shipment id with the kind's suffix, "cancelado" is a
      cancelled status and "finalizado" a delivered or loaded one. */
  lemma EventFlags(s: Shipment, k: EventKind, e: Event)
    requires EventFor(s, k, e)
    ensures e.id == s.id + Suffix(k) && e.kind == k && e.date == DateOf(s, k).value.text
    ensures e.cancelled <==> s.status == Cancelled
    ensures e.finished <==> Finished(s)
  {
  }

  function CountPresent(ss: seq<Shipment>, k: EventKind): (n: nat)
    ensures n <= |ss|
  {
    if ss == [] then 0 else CountPresent(ss[..|ss| - 1], k) + (if Present(DateOf(ss[|ss| - 1], k)) then 1 else 0)
  }

  /** There is one event per set loading date and one per set delivery
      date. */
  lemma {:induction false} EventCount(ss: seq<Shipment>)
    ensures |AllEvents(ss)| == CountPresent(ss, LoadingEvent) + CountPresent(ss, DeliveryEvent)
  {
    if ss != [] {
      EventCount(ss[..|ss| - 1]);
    }
  }

  /** Suffixed ids tell apart both the shipment and the kind. */
  lemma SuffixedIdsDiffer(a: string, b: string, k1: EventKind, k2: EventKind)
    ensures a + Suffix(k1) == b + Suffix(k2) ==> a == b && k1 == k2
  {
    var x, y := a + Suffix(k1), b + Suffix(k2);
    assert x[|x| - 1] == Suffix(k1)[|Suffix(k1)| - 1];
    assert y[|y| - 1] == Suffix(k2)[|Suffix(k2)| - 1];
    assert a == x[..|a|] && b == y[..|b|];
  }

  /** An event of an earlier shipment and one of a shipment whose id is
      not used earlier have different ids. */
  lemma {:induction false} EarlierEventIdDiffers(init: seq<Shipment>, s: Shipment, e: Event, f: Event)
    requires forall p :: 0 <= p < |init| ==> init[p].id != s.id
    requires e in AllEvents(init) && f in EventsOf(s)
    ensures e.id != f.id
  {
    EventsFromShipments(init, e);
    var p, k :| 0 <= p < |init| && EventFor(init[p], k, e);
    EventsOfMembers(s, f);
    var kf := f.kind;
    assert EventFor(s, kf, f);
    SuffixedIdsDiffer(init[p].id, s.id, k, kf);
  }

  /** On a table with unique ids the event ids are unique too. */
  lemma {:induction false} EventIdsUnique(ss: seq<Shipment>)
    requires UniqueIds(ss)
    ensures forall i, j :: 0 <= i < j < |AllEvents(ss)| ==> AllEvents(ss)[i].id != AllEvents(ss)[j].id
  {
    if ss != [] {
      var n := |ss| - 1;
      var init := ss[..n];
      assert UniqueIds(init);
      EventIdsUnique(init);
      var a, b := AllEvents(init), EventsOf(ss[n]);
      var all := a + b;
      assert AllEvents(ss) == all;
      forall p | 0 <= p < |init| ensures init[p].id != ss[n].id {
        assert init[p] == ss[p];
      }
      forall i, j | 0 <= i < j < |all| ensures all[i].id != all[j].id {
        if j >= |a| {
          assert all[j] == b[j - |a|];
          if i >= |a| {
            assert all[i] == b[i - |a|];
            assert b[i - |a|].kind == LoadingEvent && b[j - |a|].kind == DeliveryEvent;
          } else {
            assert all[i] == a[i];
            EarlierEventIdDiffers(init, ss[n], a[i], b[j - |a|]);
          }
        } else {
          assert all[i] == a[i] && all[j] == a[j];
        }
      }
    }
  }

  /** `eventosDoDia`: the events whose date starts with the day's key. */
  function EventsOn(evts: seq<Event>, key: string): seq<Event> {
    if evts == [] then []
    else (if Prefix10(evts[0].date) == key then [evts[0]] else []) + EventsOn(evts[1..], key)
  }

  /** Each day shows, in order, exactly the events dated on it. */
  lemma {:induction false} EventsOnSpec(evts: seq<Event>, key: string)
    ensures Subseq(EventsOn(evts, key), evts)
    ensures forall e :: e in EventsOn(evts, key) <==> e in evts && Prefix10(e.date) == key
  {
    if evts != [] {
      EventsOnSpec(evts[1..], key);
      var rest := EventsOn(evts[1..], key);
      assert evts == [evts[0]] + evts[1..];
      if Prefix10(evts[0].date) == key {
        var r := [evts[0]] + rest;
        assert r[0] == evts[0] && r[1..] == rest;
        assert Subseq(r, evts);
      } else {
        assert [] + rest == rest;
      }
    }
  }

  // ------------------------------------------------------------------
  // Alerts
  // ------------------------------------------------------------------

  datatype AlertKind = InfoAlert | LateAlert | SuccessAlert   // "info" | "atraso" | "sucesso"

  datatype Alert = Alert(id: string, kind: AlertKind, message: string)

  /** The calendar's lateness: a truthy delivery date whose day comes
      before today's, on a shipment not delivered. Cancelled and rebilled
      shipments count. */
  predicate CalendarLate(s: Shipment, today: string) {
    Present(s.deliveryDate) && StrLess(Prefix10(s.deliveryDate.value.text), today) && s.status != Delivered
  }

  /** The tests `gerarAlertasIA` counts or lists shipments by. */
  datatype AlertTest = LoadsToday | DeliversToday | IsCalendarLate | IsFinished

  predicate Holds(t: AlertTest, s: Shipment, today: string) {
    match t
    case LoadsToday => s.loadingDate.Some? && Prefix10(s.loadingDate.value.text) == today
    case DeliversToday => s.deliveryDate.Some? && Prefix10(s.deliveryDate.value.text) == today
    case IsCalendarLate => CalendarLate(s, today)
    case IsFinished => Finished(s)
  }

  function CountHolds(t: AlertTest, ss: seq<Shipment>, today: string): (n: nat)
    ensures n <= |ss|
  {
    if ss == [] then 0 else CountHolds(t, ss[..|ss| - 1], today) + (if Holds(t, ss[|ss| - 1], today) then 1 else 0)
  }

  function InfoAlerts(ss: seq<Shipment>, today: string): seq<Alert> {
    var nl, nd := CountHolds(LoadsToday, ss, today), CountHolds(DeliversToday, ss, today);
    (if nl > 0 then [Alert("carreg-hoje", InfoAlert, "Hoje há " + NatToString(nl) + " carregamento(s) programado(s).")] else [])
    + (if nd > 0 then [Alert("entrega-hoje", InfoAlert, "Hoje há " + NatToString(nd) + " entrega(s) programada(s).")] else [])
  }

  function LateAlertOf(s: Shipment): Alert {
    Alert(s.id + "-atraso", LateAlert, "Entrega da remessa " + s.number + " está atrasada.")
  }

  function LateAlerts(ss: seq<Shipment>, today: string): seq<Alert> {
    if ss == [] then []
    else LateAlerts(ss[..|ss| - 1], today) + (if CalendarLate(ss[|ss| - 1], today) then [LateAlertOf(ss[|ss| - 1])] else [])
  }

  /** `r.status.toUpperCase()` for the two statuses that get this alert. */
  function SuccessAlertOf(s: Shipment): Alert {
    Alert(s.id + "-status", SuccessAlert,
          "Remessa " + s.number + " foi marcada como " + (if s.status == Delivered then "ENTREGUE" else "CARREGADA") + ".")
  }

  function SuccessAlerts(ss: seq<Shipment>): seq<Alert> {
    if ss == [] then []
    else SuccessAlerts(ss[..|ss| - 1])
         + (if Finished(ss[|ss| - 1]) then [SuccessAlertOf(ss[|ss| - 1])] else [])
  }

  function Alerts(ss: seq<Shipment>, today: string): seq<Alert> {
    InfoAlerts(ss, today) + LateAlerts(ss, today) + SuccessAlerts(ss)
  }

  /** Counts the shipments loading and delivering today. */
  method CountToday(ss: seq<Shipment>, today: string) returns (nl: nat, nd: nat)
    ensures nl == CountHolds(LoadsToday, ss, today) && nd == CountHolds(DeliversToday, ss, today)
  {
    nl, nd := 0, 0;
    var i := 0;
    while i < |ss|
      invariant 0 <= i <= |ss|
      invariant nl == CountHolds(LoadsToday, ss[..i], today) && nd == CountHolds(DeliversToday, ss[..i], today)
    {
      var r := ss[i];
      if r.loadingDate.Some? && Prefix10(r.loadingDate.value.text) == today { nl := nl + 1; }
      if r.deliveryDate.Some? && Prefix10(r.deliveryDate.value.text) == today { nd := nd + 1; }
      assert ss[..i + 1][..i] == ss[..i];
      i := i + 1;
    }
    assert ss[..i] == ss;
  }

  /** `gerarAlertasIA` without the browser notifications. */
  method GenerateAlerts(ss: seq<Shipment>, today: string) returns (alerts: seq<Alert>)
    ensures alerts == Alerts(ss, today)
  {
    var nl, nd := CountToday(ss, today);
    alerts := [];
    if nl > 0 {
      alerts := alerts + [Alert("carreg-hoje", InfoAlert, "Hoje há " + NatToString(nl) + " carregamento(s) programado(s).")];
    }
    if nd > 0 {
      alerts := alerts + [Alert("entrega-hoje", InfoAlert, "Hoje há " + NatToString(nd) + " entrega(s) programada(s).")];
    }
    var late := CollectLateAlerts(ss, today);
    var success := CollectSuccessAlerts(ss);
    alerts := alerts + late + success;
  }

  method CollectLateAlerts(ss: seq<Shipment>, today: string) returns (alerts: seq<Alert>)
    ensures alerts == LateAlerts(ss, today)
  {
    alerts := [];
    var i := 0;
    while i < |ss|
      invariant 0 <= i <= |ss|
      invariant alerts == LateAlerts(ss[..i], today)
    {
      if CalendarLate(ss[i], today) {
        alerts := alerts + [LateAlertOf(ss[i])];
      }
      assert ss[..i + 1][..i] == ss[..i];
      i := i + 1;
    }
    assert ss[..i] == ss;
  }

  method CollectSuccessAlerts(ss: seq<Shipment>) returns (alerts: seq<Alert>)
    ensures alerts == SuccessAlerts(ss)
  {
    alerts := [];
    var i := 0;
    while i < |ss|
      invariant 0 <= i <= |ss|
      invariant alerts == SuccessAlerts(ss[..i])
    {
      if Finished(ss[i]) {
        alerts := alerts + [SuccessAlertOf(ss[i])];
      }
      assert ss[..i + 1][..i] == ss[..i];
      i := i + 1;
    }
    assert ss[..i] == ss;
  }

  lemma {:induction false} LateAlertsSpec(ss: seq<Shipment>, today: string)
    ensures |LateAlerts(ss, today)| == CountHolds(IsCalendarLate, ss, today)
    ensures forall a :: a in LateAlerts(ss, today) ==> a.kind == LateAlert
  {
    if ss != [] {
      LateAlertsSpec(ss[..|ss| - 1], today);
    }
  }

  lemma {:induction false} SuccessAlertsSpec(ss: seq<Shipment>, today: string)
    ensures |SuccessAlerts(ss)| == CountHolds(IsFinished, ss, today)
    ensures forall a :: a in SuccessAlerts(ss) ==> a.kind == SuccessAlert
  {
    if ss != [] {
      SuccessAlertsSpec(ss[..|ss| - 1], today);
    }
  }

  lemma {:induction false} LateAlertsFrom(ss: seq<Shipment>, today: string, a: Alert)
    requires a in LateAlerts(ss, today)
    ensures exists i :: 0 <= i < |ss| && CalendarLate(ss[i], today) && a == LateAlertOf(ss[i])
  {
    var n := |ss| - 1;
    var init := ss[..n];
    if a in LateAlerts(init, today) {
      LateAlertsFrom(init, today, a);
      var i :| 0 <= i < |init| && CalendarLate(init[i], today) && a == LateAlertOf(init[i]);
      assert ss[i] == init[i];
    } else {
      assert CalendarLate(ss[n], today) && a == LateAlertOf(ss[n]);
    }
  }

  lemma {:induction false} ShipmentsHaveLateAlerts(ss: seq<Shipment>, today: string, i: int)
    requires 0 <= i < |ss| && CalendarLate(ss[i], today)
    ensures LateAlertOf(ss[i]) in LateAlerts(ss, today)
  {
    var n := |ss| - 1;
    var init := ss[..n];
    assert LateAlerts(ss, today) == LateAlerts(init, today) + (if CalendarLate(ss[n], today) then [LateAlertOf(ss[n])] else []);
    if i < n {
      assert init[i] == ss[i];
      ShipmentsHaveLateAlerts(init, today, i);
    }
  }

  /** Each late alert names a calendar-late shipment of the list, and each
      calendar-late shipment has its alert. */
  lemma LateAlertsMembers(ss: seq<Shipment>, today: string, a: Alert)
    ensures a in LateAlerts(ss, today) <==>
      exists i :: 0 <= i < |ss| && CalendarLate(ss[i], today) && a == LateAlertOf(ss[i])
  {
    if a in LateAlerts(ss, today) {
      LateAlertsFrom(ss, today, a);
    }
    if exists i :: 0 <= i < |ss| && CalendarLate(ss[i], today) && a == LateAlertOf(ss[i]) {
      var i :| 0 <= i < |ss| && CalendarLate(ss[i], today) && a == LateAlertOf(ss[i]);
      ShipmentsHaveLateAlerts(ss, today, i);
    }
  }

  /** "entregue" or "carregada": the statuses that get a success alert. */
  predicate Finished(s: Shipment) {
    s.status == Delivered || s.status == Loaded
  }

  lemma {:induction false} SuccessAlertsFrom(ss: seq<Shipment>, a: Alert)
    requires a in SuccessAlerts(ss)
    ensures exists i :: 0 <= i < |ss| && Finished(ss[i]) && a == SuccessAlertOf(ss[i])
  {
    var n := |ss| - 1;
    var init := ss[..n];
    if a in SuccessAlerts(init) {
      SuccessAlertsFrom(init, a);
      var i :| 0 <= i < |init| && Finished(init[i]) && a == SuccessAlertOf(init[i]);
      assert ss[i] == init[i];
    } else {
      assert Finished(ss[n]) && a == SuccessAlertOf(ss[n]);
    }
  }

  lemma {:induction false} ShipmentsHaveSuccessAlerts(ss: seq<Shipment>, i: int)
    requires 0 <= i < |ss| && Finished(ss[i])
    ensures SuccessAlertOf(ss[i]) in SuccessAlerts(ss)
  {
    var n := |ss| - 1;
    var init := ss[..n];
    assert SuccessAlerts(ss) == SuccessAlerts(init) + (if Finished(ss[n]) then [SuccessAlertOf(ss[n])] else []);
    if i < n {
      assert init[i] == ss[i];
      ShipmentsHaveSuccessAlerts(init, i);
    }
  }

  /** Each success alert names a delivered or loaded shipment of the list,
      and each such shipment has its alert. */
  lemma SuccessAlertsMembers(ss: seq<Shipment>, a: Alert)
    ensures a in SuccessAlerts(ss) <==>
      exists i :: 0 <= i < |ss| && Finished(ss[i]) && a == SuccessAlertOf(ss[i])
  {
    if a in SuccessAlerts(ss) {
      SuccessAlertsFrom(ss, a);
    }
    if exists i :: 0 <= i < |ss| && Finished(ss[i]) && a == SuccessAlertOf(ss[i]) {
      var i :| 0 <= i < |ss| && Finished(ss[i]) && a == SuccessAlertOf(ss[i]);
      ShipmentsHaveSuccessAlerts(ss, i);
    }
  }

  function Rank(k: AlertKind): int {
    match k
    case InfoAlert => 0
    case LateAlert => 1
    case SuccessAlert => 2
  }

  lemma InfoAlertsSpec(ss: seq<Shipment>, today: string)
    ensures |InfoAlerts(ss, today)| == (if CountHolds(LoadsToday, ss, today) > 0 then 1 else 0)
                                       + (if CountHolds(DeliversToday, ss, today) > 0 then 1 else 0)
    ensures forall a :: a in InfoAlerts(ss, today) ==> a.kind == InfoAlert
  {
  }

  /** The alerts come as at most two "today" notices, then one per late
      shipment, then one per delivered or loaded shipment. */
  lemma AlertsInOrder(ss: seq<Shipment>, today: string)
    ensures var a := Alerts(ss, today);
      && |a| == (if CountHolds(LoadsToday, ss, today) > 0 then 1 else 0)
                + (if CountHolds(DeliversToday, ss, today) > 0 then 1 else 0)
                + CountHolds(IsCalendarLate, ss, today) + CountHolds(IsFinished, ss, today)
      && forall i, j :: 0 <= i < j < |a| ==> Rank(a[i].kind) <= Rank(a[j].kind)
  {
    InfoAlertsSpec(ss, today);
    LateAlertsSpec(ss, today);
    SuccessAlertsSpec(ss, today);
    var x, y, z := InfoAlerts(ss, today), LateAlerts(ss, today), SuccessAlerts(ss);
    RanksOfParts(x, y, z);
  }

  /** Three homogeneous blocks of increasing rank, concatenated. */
  lemma RanksOfParts(x: seq<Alert>, y: seq<Alert>, z: seq<Alert>)
    requires forall a :: a in x ==> a.kind == InfoAlert
    requires forall a :: a in y ==> a.kind == LateAlert
    requires forall a :: a in z ==> a.kind == SuccessAlert
    ensures forall i, j :: 0 <= i < j < |x + y + z| ==> Rank((x + y + z)[i].kind) <= Rank((x + y + z)[j].kind)
  {
    var a := x + y + z;
    forall i | 0 <= i < |a|
      ensures Rank(a[i].kind) == if i < |x| then 0 else if i < |x| + |y| then 1 else 2
    {
      if i < |x| {
        assert a[i] == x[i];
      } else if i < |x| + |y| {
        assert a[i] == y[i - |x|];
      } else {
        assert a[i] == z[i - |x| - |y|];
      }
    }
  }

  // ------------------------------------------------------------------
  // The three notions of lateness
  // ------------------------------------------------------------------

  /** The day key of a stored date and the instant it parses to agree on
      "before today": the ten-character day comes before today's key exactly
      when the instant comes before `startOfToday`. Today's key `hojeStr` is
      `toISOString().slice(0, 10)` of the current instant, its UTC date, so
      `startOfToday` is that date's UTC midnight. Date-only ISO columns,
      which `new Date` reads as UTC midnight, agree with the key in every
      time zone; a column carrying a time and an offset may not, and
      nothing in the pages enforces agreement. */
  predicate DayKeyAgrees(d: Stamp, today: string, startOfToday: int) {
    d.instant.Some? && (StrLess(Prefix10(d.text), today) <==> d.instant.value < startOfToday)
  }

  /** Where the day key agrees with the instant, a calendar-late shipment
      that is neither cancelled nor rebilled is late on the tracking page
      and overdue on the pendencies page: its day ended before `now`. */
  lemma CalendarLateIsLate(s: Shipment, today: string, startOfToday: int, now: int)
    requires CalendarLate(s, today)
    requires DayKeyAgrees(s.deliveryDate.value, today, startOfToday) && startOfToday <= now
    requires s.status != Cancelled && s.status != Rebilled
    ensures IsLate(s, now) && Applies(DeliveryOverdue, s, now)
  {
  }

  /** A cancelled shipment with a past delivery day is late only on the
      calendar. */
  lemma CancelledLateOnlyOnCalendar(s: Shipment, today: string, now: int)
    requires s.status == Cancelled && Present(s.deliveryDate)
    requires StrLess(Prefix10(s.deliveryDate.value.text), today)
    ensures CalendarLate(s, today) && !IsLate(s, now) && !Applies(DeliveryOverdue, s, now)
  {
  }

  /** Conversely a shipment the tracking page marks late, whose day key
      agrees with its instant, is late on the calendar exactly when it was
      due before today began: one due earlier today is not. */
  lemma IsLateIsCalendarLate(s: Shipment, today: string, startOfToday: int, now: int)
    requires IsLate(s, now)
    requires DayKeyAgrees(s.deliveryDate.value, today, startOfToday)
    ensures CalendarLate(s, today) <==> s.deliveryDate.value.instant.value < startOfToday
  {
  }

  /** A delivery due earlier today, before `now`: the tracking and
      pendencies pages call it late, the calendar does not. */
  lemma DueEarlierTodayLateOnlyElsewhere(s: Shipment, today: string, startOfToday: int, now: int)
    requires Present(s.deliveryDate) && DayKeyAgrees(s.deliveryDate.value, today, startOfToday)
    requires startOfToday <= s.deliveryDate.value.instant.value < now
    requires s.status != Delivered && s.status != Cancelled && s.status != Rebilled
    ensures IsLate(s, now) && Applies(DeliveryOverdue, s, now) && !CalendarLate(s, today)
  {
  }

  /** Such a shipment exists: due at 08:00 on the day being shown, seen at
      09:00 the same day, with the key and instant in agreement. */
  lemma DueEarlierTodayExample()
    ensures var d := Stamp("2024-05-10T08:00:00", Some(8));
      var s := Store.NewShipment("r1", "100", "200", "cliente", 0).(deliveryDate := Some(d), status := Scheduled);
      DayKeyAgrees(d, "2024-05-10", 0) && IsLate(s, 9) && !CalendarLate(s, "2024-05-10")
  {
    var d := Stamp("2024-05-10T08:00:00", Some(8));
    assert Prefix10(d.text) == "2024-05-10";
    StrLessIrreflexive("2024-05-10");
    var s := Store.NewShipment("r1", "100", "200", "cliente", 0).(deliveryDate := Some(d), status := Scheduled);
    DueEarlierTodayLateOnlyElsewhere(s, "2024-05-10", 0, 9);
  }
}
