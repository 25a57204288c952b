/** The pendencies page ("pendencias"): the problems the dashboard detects
    on each shipment, the counters above the list, the filters and the
    order in which the list is shown. */
module Pendencies {
  import opened Text
  import opened Shipments
  import opened Views

  datatype PendencyKind =
    | MissingScheduling      // "sem_agendamento"
    | MissingLoadingDate     // "sem_data_carregamento"
    | MissingDeliveryDate    // "sem_data_entrega"
    | LoadingOverdue         // "atraso_carregamento"
    | DeliveryOverdue        // "atraso_entrega"

  datatype Pendency = Pendency(shipment: Shipment, kind: PendencyKind)

  /** When a shipment has a pendency of kind `k` at instant `now`. Dates
      count when the column is truthy; an overdue date must also parse to an
      instant before `now`. */
  predicate Applies(k: PendencyKind, s: Shipment, now: int) {
    match k
    case MissingScheduling => s.status == AwaitingScheduling
    case MissingLoadingDate =>
      !Present(s.loadingDate) && (s.status == Scheduled || s.status == AwaitingLoading)
    case MissingDeliveryDate =>
      !Present(s.deliveryDate) && (s.status == Loaded || s.status == InTransit || s.status == Delivered)
    case LoadingOverdue =>
      Before(s.loadingDate, now) && (s.status == AwaitingLoading || s.status == Scheduled)
    case DeliveryOverdue =>
      Before(s.deliveryDate, now) && s.status != Delivered && s.status != Cancelled
  }

  /** The kinds in the order the detector tests them. */
  function CheckOrder(): seq<PendencyKind> {
    [MissingScheduling, MissingLoadingDate, MissingDeliveryDate, LoadingOverdue, DeliveryOverdue]
  }

  function EmitIf(k: PendencyKind, s: Shipment, now: int): seq<Pendency> {
    if Applies(k, s, now) then [Pendency(s, k)] else []
  }

  /** The pendencies of one shipment, in check order. */
  function Emit(s: Shipment, now: int): seq<Pendency> {
    EmitIf(MissingScheduling, s, now) + EmitIf(MissingLoadingDate, s, now)
    + EmitIf(MissingDeliveryDate, s, now) + EmitIf(LoadingOverdue, s, now)
    + EmitIf(DeliveryOverdue, s, now)
  }

  /** `pendenciasBase` as a value: the shipments in list order, each
      followed by its pendencies. */
  function Base(ss: seq<Shipment>, now: int): seq<Pendency> {
    if ss == [] then [] else Base(ss[..|ss| - 1], now) + Emit(ss[|ss| - 1], now)
  }

  /** The five tests the detector runs on one shipment. */
  method EmitFor(s: Shipment, now: int) returns (e: seq<Pendency>)
    ensures e == Emit(s, now)
  {
    e := [];
    if s.status == AwaitingScheduling {
      e := e + [Pendency(s, MissingScheduling)];
    }
    if !Present(s.loadingDate) && (s.status == Scheduled || s.status == AwaitingLoading) {
      e := e + [Pendency(s, MissingLoadingDate)];
    }
    if !Present(s.deliveryDate) && (s.status == Loaded || s.status == InTransit || s.status == Delivered) {
      e := e + [Pendency(s, MissingDeliveryDate)];
    }
    if Present(s.loadingDate) {
      if Before(s.loadingDate, now) && (s.status == AwaitingLoading || s.status == Scheduled) {
        e := e + [Pendency(s, LoadingOverdue)];
      }
    }
    if Present(s.deliveryDate) {
      if Before(s.deliveryDate, now) && s.status != Delivered && s.status != Cancelled {
        e := e + [Pendency(s, DeliveryOverdue)];
      }
    }
  }

  /** The detector: one pass over the shipments in list order. */
  method DetectPendencies(ss: seq<Shipment>, now: int) returns (r: seq<Pendency>)
    ensures r == Base(ss, now)
  {
    r := [];
    var i := 0;
    while i < |ss|
      invariant 0 <= i <= |ss|
      invariant r == Base(ss[..i], now)
    {
      var e := EmitFor(ss[i], now);
      r := r + e;
      assert ss[..i + 1][..i] == ss[..i];
      i := i + 1;
    }
    assert ss[..i] == ss;
  }

  /** The position of a kind in the detector's check order. */
  function CheckIndex(k: PendencyKind): (r: nat)
    ensures r < |CheckOrder()| && CheckOrder()[r] == k
  {
    match k
    case MissingScheduling => 0
    case MissingLoadingDate => 1
    case MissingDeliveryDate => 2
    case LoadingOverdue => 3
    case DeliveryOverdue => 4
  }

  predicate InCheckOrder(ps: seq<Pendency>) {
    forall i, j :: 0 <= i < j < |ps| ==> CheckIndex(ps[i].kind) < CheckIndex(ps[j].kind)
  }

  /** A piece the detector appends for kind `k`: nothing, or one pendency
      of that kind. */
  predicate OneOfKind(e: seq<Pendency>, k: PendencyKind) {
    |e| <= 1 && forall p :: p in e ==> p.kind == k
  }

  /** Appending a piece of a kind later in the check order than every kind
      already present keeps the list in check order. */
  lemma AppendInCheckOrder(a: seq<Pendency>, e: seq<Pendency>, k: PendencyKind)
    requires InCheckOrder(a) && OneOfKind(e, k)
    requires forall p :: p in a ==> CheckIndex(p.kind) < CheckIndex(k)
    ensures InCheckOrder(a + e)
    ensures forall p :: p in a + e ==> CheckIndex(p.kind) <= CheckIndex(k)
  {
    var r := a + e;
    forall i, j | 0 <= i < j < |r| ensures CheckIndex(r[i].kind) < CheckIndex(r[j].kind) {
      if j < |a| {
        assert r[i] == a[i] && r[j] == a[j];
      } else {
        assert r[j] == e[j - |a|] && i < |a|;
        assert r[i] == a[i];
        assert a[i] in a && e[j - |a|] in e;
      }
    }
  }

  /** Five pieces, one per kind in check order, concatenate to a list in
      check order. */
  lemma PiecesInCheckOrder(e1: seq<Pendency>, e2: seq<Pendency>, e3: seq<Pendency>,
                           e4: seq<Pendency>, e5: seq<Pendency>)
    requires OneOfKind(e1, MissingScheduling) && OneOfKind(e2, MissingLoadingDate)
    requires OneOfKind(e3, MissingDeliveryDate) && OneOfKind(e4, LoadingOverdue)
    requires OneOfKind(e5, DeliveryOverdue)
    ensures InCheckOrder(e1 + e2 + e3 + e4 + e5)
  {
    AppendInCheckOrder([], e1, MissingScheduling);
    assert [] + e1 == e1;
    AppendInCheckOrder(e1, e2, MissingLoadingDate);
    AppendInCheckOrder(e1 + e2, e3, MissingDeliveryDate);
    AppendInCheckOrder(e1 + e2 + e3, e4, LoadingOverdue);
    AppendInCheckOrder(e1 + e2 + e3 + e4, e5, DeliveryOverdue);
  }

  /** Within one shipment the pendencies come in the detector's check order,
      so no kind appears twice. */
  lemma EmitInCheckOrder(s: Shipment, now: int)
    ensures InCheckOrder(Emit(s, now))
  {
    PiecesInCheckOrder(EmitIf(MissingScheduling, s, now), EmitIf(MissingLoadingDate, s, now),
                       EmitIf(MissingDeliveryDate, s, now), EmitIf(LoadingOverdue, s, now),
                       EmitIf(DeliveryOverdue, s, now));
  }

  /** The pendencies of one shipment are about it, one per applicable kind. */
  lemma EmitSpec(s: Shipment, now: int)
    ensures forall p :: p in Emit(s, now) <==> p.shipment == s && Applies(p.kind, s, now)
  {
  }

  lemma {:induction false} BaseAppend(a: seq<Shipment>, b: seq<Shipment>, now: int)
    ensures Base(a + b, now) == Base(a, now) + Base(b, now)
  {
    if b != [] {
      var c := a + b;
      var b' := b[..|b| - 1];
      assert c[..|c| - 1] == a + b' && c[|c| - 1] == b[|b| - 1];
      assert Base(c, now) == Base(a + b', now) + Emit(b[|b| - 1], now);
      BaseAppend(a, b', now);
      assert Base(b, now) == Base(b', now) + Emit(b[|b| - 1], now);
    } else {
      assert a + b == a;
    }
  }

  /** A shipment has a pendency of a kind in the list exactly when it is in
      the list of shipments and the kind applies to it. */
  lemma {:induction false} BaseMembers(ss: seq<Shipment>, now: int)
    ensures forall p :: p in Base(ss, now) <==> p.shipment in ss && Applies(p.kind, p.shipment, now)
  {
    if ss != [] {
      var init := ss[..|ss| - 1];
      BaseMembers(init, now);
      EmitSpec(ss[|ss| - 1], now);
      assert ss == init + [ss[|ss| - 1]];
    }
  }

  /** The detector never reports a missing loading date together with an
      overdue one for the same shipment. */
  lemma NoMissingAndOverdueLoading(ss: seq<Shipment>, now: int, s: Shipment)
    ensures !(Pendency(s, MissingLoadingDate) in Base(ss, now) && Pendency(s, LoadingOverdue) in Base(ss, now))
  {
    BaseMembers(ss, now);
  }

  /** A cancelled shipment has no pendency at all, and a delivered one at
      most a missing delivery date. */
  lemma CancelledAndDeliveredQuiet(ss: seq<Shipment>, now: int, p: Pendency)
    requires p in Base(ss, now)
    ensures p.shipment.status != Cancelled
    ensures p.shipment.status == Delivered ==> p.kind == MissingDeliveryDate
  {
    BaseMembers(ss, now);
  }

  // ------------------------------------------------------------------
  // Counters
  // ------------------------------------------------------------------

  function CountKind(ps: seq<Pendency>, k: PendencyKind): (n: nat)
    ensures n <= |ps|
  {
    if ps == [] then 0 else CountKind(ps[..|ps| - 1], k) + (if ps[|ps| - 1].kind == k then 1 else 0)
  }

  function CountApplies(ss: seq<Shipment>, k: PendencyKind, now: int): nat {
    if ss == [] then 0 else CountApplies(ss[..|ss| - 1], k, now) + (if Applies(k, ss[|ss| - 1], now) then 1 else 0)
  }

  lemma {:induction false} CountKindAppend(a: seq<Pendency>, b: seq<Pendency>, k: PendencyKind)
    ensures CountKind(a + b, k) == CountKind(a, k) + CountKind(b, k)
  {
    if b != [] {
      var c := a + b;
      assert c[..|c| - 1] == a + b[..|b| - 1];
      CountKindAppend(a, b[..|b| - 1], k);
    } else {
      assert a + b == a;
    }
  }

  lemma CountKindEmitIf(k': PendencyKind, s: Shipment, k: PendencyKind, now: int)
    ensures CountKind(EmitIf(k', s, now), k) == if k' == k && Applies(k, s, now) then 1 else 0
  {
    if Applies(k', s, now) {
      assert [Pendency(s, k')][..0] == [];
    }
  }

  lemma CountKindEmit(s: Shipment, k: PendencyKind, now: int)
    ensures CountKind(Emit(s, now), k) == if Applies(k, s, now) then 1 else 0
  {
    var e1, e2, e3, e4, e5 := EmitIf(MissingScheduling, s, now), EmitIf(MissingLoadingDate, s, now),
      EmitIf(MissingDeliveryDate, s, now), EmitIf(LoadingOverdue, s, now), EmitIf(DeliveryOverdue, s, now);
    CountKindAppend(e1, e2, k);
    CountKindAppend(e1 + e2, e3, k);
    CountKindAppend(e1 + e2 + e3, e4, k);
    CountKindAppend(e1 + e2 + e3 + e4, e5, k);
    CountKindEmitIf(MissingScheduling, s, k, now);
    CountKindEmitIf(MissingLoadingDate, s, k, now);
    CountKindEmitIf(MissingDeliveryDate, s, k, now);
    CountKindEmitIf(LoadingOverdue, s, k, now);
    CountKindEmitIf(DeliveryOverdue, s, k, now);
  }

  /** The counter of a kind is the number of shipments the kind applies to:
      the detector reports each kind at most once per shipment. */
  lemma {:induction false} CountKindBase(ss: seq<Shipment>, k: PendencyKind, now: int)
    ensures CountKind(Base(ss, now), k) == CountApplies(ss, k, now)
  {
    if ss != [] {
      CountKindBase(ss[..|ss| - 1], k, now);
      CountKindAppend(Base(ss[..|ss| - 1], now), Emit(ss[|ss| - 1], now), k);
      CountKindEmit(ss[|ss| - 1], k, now);
    }
  }

  /** The total counter is the sum of the five per-kind counts. */
  lemma {:induction false} TotalIsSumOfKinds(ps: seq<Pendency>)
    ensures |ps| == CountKind(ps, MissingScheduling) + CountKind(ps, MissingLoadingDate)
                    + CountKind(ps, MissingDeliveryDate) + CountKind(ps, LoadingOverdue)
                    + CountKind(ps, DeliveryOverdue)
  {
    if ps != [] {
      TotalIsSumOfKinds(ps[..|ps| - 1]);
    }
  }

  /** The four counters above the list. */
  datatype Kpis = Kpis(total: nat, missingScheduling: nat, loadingOverdue: nat, deliveryOverdue: nat)

  function ComputeKpis(ps: seq<Pendency>): (r: Kpis)
    ensures r.missingScheduling + r.loadingOverdue + r.deliveryOverdue <= r.total
  {
    TotalIsSumOfKinds(ps);
    Kpis(|ps|, CountKind(ps, MissingScheduling), CountKind(ps, LoadingOverdue), CountKind(ps, DeliveryOverdue))
  }

  /** The counters over the detected list count shipments: a shipment
      awaiting scheduling counts once in "sem agendamento", and so on. */
  lemma KpisCountShipments(ss: seq<Shipment>, now: int)
    ensures var r := ComputeKpis(Base(ss, now));
      && r.total == CountApplies(ss, MissingScheduling, now) + CountApplies(ss, MissingLoadingDate, now)
                    + CountApplies(ss, MissingDeliveryDate, now) + CountApplies(ss, LoadingOverdue, now)
                    + CountApplies(ss, DeliveryOverdue, now)
      && r.missingScheduling == CountApplies(ss, MissingScheduling, now)
      && r.loadingOverdue == CountApplies(ss, LoadingOverdue, now)
      && r.deliveryOverdue == CountApplies(ss, DeliveryOverdue, now)
  {
    TotalIsSumOfKinds(Base(ss, now));
    CountKindBase(ss, MissingScheduling, now);
    CountKindBase(ss, MissingLoadingDate, now);
    CountKindBase(ss, MissingDeliveryDate, now);
    CountKindBase(ss, LoadingOverdue, now);
    CountKindBase(ss, DeliveryOverdue, now);
  }

  // ------------------------------------------------------------------
  // Filters
  // ------------------------------------------------------------------

  /** The kind filter: "todas" or one kind. */
  datatype KindFilter = AnyKind | OnlyKind(kind: PendencyKind)

  /** One pendency passes the three filters: kind, carrier key ("todas"
      keeps all) and search. */
  predicate Keeps(p: Pendency, kf: KindFilter, carrier: string, query: string) {
    && (kf.AnyKind? || p.kind == kf.kind)
    && CarrierFilterKeeps(carrier, p.shipment)
    && SearchMatches(p.shipment, query)
  }

  function FilterPendencies(ps: seq<Pendency>, kf: KindFilter, carrier: string, query: string): (r: seq<Pendency>)
  {
    if ps == [] then []
    else (if Keeps(ps[0], kf, carrier, query) then [ps[0]] else []) + FilterPendencies(ps[1..], kf, carrier, query)
  }

  /** The filtered list keeps, in order, exactly the pendencies that pass. */
  lemma {:induction false} FilterPendenciesSpec(ps: seq<Pendency>, kf: KindFilter, carrier: string, query: string)
    ensures Subseq(FilterPendencies(ps, kf, carrier, query), ps)
    ensures forall p :: p in FilterPendencies(ps, kf, carrier, query) <==> p in ps && Keeps(p, kf, carrier, query)
  {
    if ps != [] {
      FilterPendenciesSpec(ps[1..], kf, carrier, query);
      var rest := FilterPendencies(ps[1..], kf, carrier, query);
      assert ps == [ps[0]] + ps[1..];
      if Keeps(ps[0], kf, carrier, query) {
        var r := [ps[0]] + rest;
        assert r[0] == ps[0] && r[1..] == rest;
        assert Subseq(r, ps);
      } else {
        assert [] + rest == rest;
      }
    }
  }

  /** With every filter cleared the list is the detected list. */
  lemma {:induction false} ClearedFiltersKeepAll(ps: seq<Pendency>)
    ensures FilterPendencies(ps, AnyKind, "todas", "") == ps
  {
    if ps != [] {
      ClearedFiltersKeepAll(ps[1..]);
      assert Trim("") == "";
      assert ps == [ps[0]] + ps[1..];
    }
  }

  /** Filtering by a kind alone keeps as many pendencies as its counter. */
  lemma {:induction false} KindFilterMatchesCounter(ps: seq<Pendency>, k: PendencyKind)
    ensures |FilterPendencies(ps, OnlyKind(k), "todas", "")| == CountKind(ps, k)
  {
    if ps != [] {
      KindFilterMatchesCounter(ps[1..], k);
      assert Trim("") == "";
      CountKindAppend([ps[0]], ps[1..], k);
      assert ps == [ps[0]] + ps[1..];
      assert [ps[0]][..0] == [];
    }
  }

  // ------------------------------------------------------------------
  // Order
  // ------------------------------------------------------------------

  /** `pesoTipo`: overdue deliveries first, shipments awaiting scheduling last. */
  function Weight(k: PendencyKind): (w: int)
    ensures 1 <= w <= 5
  {
    match k
    case DeliveryOverdue => 1
    case LoadingOverdue => 2
    case MissingDeliveryDate => 3
    case MissingLoadingDate => 4
    case MissingScheduling => 5
  }

  /** The comparator does not put `p` after `q`: lower weight, or equal
      weight and an older (or equally old) shipment. */
  predicate InOrder(p: Pendency, q: Pendency) {
    Weight(p.kind) < Weight(q.kind)
    || (Weight(p.kind) == Weight(q.kind) && p.shipment.createdAt <= q.shipment.createdAt)
  }

  predicate Sorted(s: seq<Pendency>) {
    forall i, j :: 0 <= i < j < |s| ==> InOrder(s[i], s[j])
  }

  /** The comparator is total. */
  lemma InOrderTotal(p: Pendency, q: Pendency)
    ensures InOrder(p, q) || InOrder(q, p)
  {
  }

  /** The comparator is transitive. */
  lemma InOrderTransitive(p: Pendency, q: Pendency, r: Pendency)
    requires InOrder(p, q) && InOrder(q, r)
    ensures InOrder(p, r)
  {
  }

  /** `p` and `q` tie: the comparator returns 0 for them (same weight and
      same creation instant). */
  predicate Ties(p: Pendency, q: Pendency) {
    InOrder(p, q) && InOrder(q, p)
  }

  /** The elements of `s` that tie with `x`, in their order in `s`. A sort
      is stable when, for every `x`, this is the same before and after. */
  function TiesWith(s: seq<Pendency>, x: Pendency): seq<Pendency> {
    if s == [] then [] else (if Ties(s[0], x) then [s[0]] else []) + TiesWith(s[1..], x)
  }

  lemma {:induction false} TiesWithAppend(a: seq<Pendency>, b: seq<Pendency>, x: Pendency)
    ensures TiesWith(a + b, x) == TiesWith(a, x) + TiesWith(b, x)
  {
    if a == [] {
      assert a + b == b;
    } else {
      assert (a + b)[0] == a[0] && (a + b)[1..] == a[1..] + b;
      TiesWithAppend(a[1..], b, x);
    }
  }

  /** Exchanging two neighbours that do not tie keeps every tie class in
      order: at most one of them ties with any `x`. */
  lemma SwapKeepsTies(s: seq<Pendency>, j: int, x: Pendency)
    requires 0 < j < |s| && !InOrder(s[j - 1], s[j])
    ensures TiesWith(Swap(s, j), x) == TiesWith(s, x)
  {
    var u, v := s[j - 1], s[j];
    var pre, post := s[..j - 1], s[j + 1..];
    assert s == pre + ([u, v] + post);
    assert Swap(s, j) == pre + ([v, u] + post);
    TiesWithAppend(pre, [u, v] + post, x);
    TiesWithAppend(pre, [v, u] + post, x);
    TiesWithAppend([u, v], post, x);
    TiesWithAppend([v, u], post, x);
    assert [u, v][1..] == [v] && [v, u][1..] == [u];
    assert TiesWith([u, v], x) == TiesWith([v, u], x);
  }

  /** `s` with the elements at `j - 1` and `j` exchanged. */
  function Swap(s: seq<Pendency>, j: int): (r: seq<Pendency>)
    requires 0 < j < |s|
    ensures |r| == |s| && multiset(r) == multiset(s)
    ensures r[j - 1] == s[j] && r[j] == s[j - 1]
    ensures forall k :: 0 <= k < |s| && k != j - 1 && k != j ==> r[k] == s[k]
  {
    s[j - 1 := s[j]][j := s[j - 1]]
  }

  /** While the element that started at `i` sits at `j`: the prefix `s[..i + 1]`
      is in order apart from pairs that involve position `j`, and the element
      at `j` is in order with every element after it. */
  predicate SiftInv(s: seq<Pendency>, i: int, j: int) {
    && 0 <= j <= i < |s|
    && (forall p, q :: 0 <= p < q <= i && p != j && q != j ==> InOrder(s[p], s[q]))
    && (forall q :: j < q <= i ==> InOrder(s[j], s[q]))
  }

  lemma SiftStart(s: seq<Pendency>, i: int)
    requires 0 <= i < |s| && Sorted(s[..i])
    ensures SiftInv(s, i, i)
  {
    forall p, q | 0 <= p < q <= i && p != i && q != i ensures InOrder(s[p], s[q]) {
      assert s[p] == s[..i][p] && s[q] == s[..i][q];
    }
  }

  lemma SiftStep(s: seq<Pendency>, i: int, j: int)
    requires SiftInv(s, i, j) && 0 < j && !InOrder(s[j - 1], s[j])
    ensures SiftInv(Swap(s, j), i, j - 1)
  {
    var r := Swap(s, j);
    InOrderTotal(s[j - 1], s[j]);
    forall p, q | 0 <= p < q <= i && p != j - 1 && q != j - 1 ensures InOrder(r[p], r[q]) {
      if q == j {
        assert r[p] == s[p];
      } else if p == j {
        assert r[q] == s[q];
      } else {
        assert r[p] == s[p] && r[q] == s[q];
      }
    }
    forall q | j - 1 < q <= i ensures InOrder(r[j - 1], r[q]) {
      if q > j {
        assert r[q] == s[q];
      }
    }
  }

  lemma SiftDone(s: seq<Pendency>, i: int, j: int)
    requires SiftInv(s, i, j) && (j == 0 || InOrder(s[j - 1], s[j]))
    ensures Sorted(s[..i + 1])
  {
    forall p, q | 0 <= p < q <= i ensures InOrder(s[p], s[q]) {
      if q == j && p < j - 1 {
        InOrderTransitive(s[p], s[j - 1], s[j]);
      }
    }
    var t := s[..i + 1];
    forall p, q | 0 <= p < q < |t| ensures InOrder(t[p], t[q]) {
      assert t[p] == s[p] && t[q] == s[q];
    }
  }

  /** Moves `a[i]` down past the elements of the sorted prefix `a[..i]` the
      comparator puts after it, one adjacent swap at a time. */
  method SiftDown(a: array<Pendency>, i: int)
    requires 0 <= i < a.Length && Sorted(a[..i])
    modifies a
    ensures Sorted(a[..i + 1])
    ensures multiset(a[..]) == multiset(old(a[..]))
    ensures forall x :: TiesWith(a[..], x) == TiesWith(old(a[..]), x)
  {
    SiftStart(a[..], i);
    var j := i;
    while j > 0 && !InOrder(a[j - 1], a[j])
      invariant SiftInv(a[..], i, j)
      invariant multiset(a[..]) == multiset(old(a[..]))
      invariant forall x :: TiesWith(a[..], x) == TiesWith(old(a[..]), x)
    {
      ghost var before := a[..];
      SiftStep(before, i, j);
      forall x ensures TiesWith(Swap(before, j), x) == TiesWith(before, x) {
        SwapKeepsTies(before, j, x);
      }
      a[j - 1], a[j] := a[j], a[j - 1];
      assert a[..] == Swap(before, j);
      j := j - 1;
    }
    SiftDone(a[..], i, j);
  }

  /** Sorts the array in place by moving each element down past the ones
      the comparator puts after it. The sort is stable, as `Array.prototype.sort`
      must be: elements that tie keep their relative order. */
  method SortPendencies(a: array<Pendency>)
    modifies a
    ensures Sorted(a[..])
    ensures multiset(a[..]) == multiset(old(a[..]))
    ensures forall x :: TiesWith(a[..], x) == TiesWith(old(a[..]), x)
  {
    var i := 0;
    while i < a.Length
      invariant 0 <= i <= a.Length
      invariant Sorted(a[..i])
      invariant multiset(a[..]) == multiset(old(a[..]))
      invariant forall x :: TiesWith(a[..], x) == TiesWith(old(a[..]), x)
    {
      SiftDown(a, i);
      i := i + 1;
    }
    assert a[..i] == a[..];
  }

  /** `pendenciasOrdenadas`: a sorted copy of the filtered list, in which
      pendencies that tie keep their filtered order. */
  method OrderedPendencies(ps: seq<Pendency>) returns (r: seq<Pendency>)
    ensures Sorted(r)
    ensures multiset(r) == multiset(ps)
    ensures forall x :: TiesWith(r, x) == TiesWith(ps, x)
  {
    if ps == [] {
      return [];
    }
    var a := new Pendency[|ps|](i requires 0 <= i < |ps| => ps[i]);
    assert a[..] == ps;
    SortPendencies(a);
    r := a[..];
  }

  /** In the shown order every overdue delivery comes before every
      pendency of another kind. */
  lemma OverdueDeliveriesFirst(s: seq<Pendency>, i: int, j: int)
    requires Sorted(s) && 0 <= i < |s| && 0 <= j < |s|
    requires s[j].kind == DeliveryOverdue && s[i].kind != DeliveryOverdue
    ensures j < i
  {
  }
}
