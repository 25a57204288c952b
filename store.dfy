/** The two tables every page writes through the data-store client:
    `remessas` (shipments) and `remessa_historico` (their audit trail).
    Each client call becomes a method; the error the client reports for a
    shipment write is an input, and the outcome of a history write, which
    no caller inspects beyond logging, is left open. */
module Store {
  import opened Shipments

  /** The column values one `update({...})` call sends. */
  datatype Patch =
    | EditKeys(number: string, note: string, client: string)
    | ScheduleDelivery(date: Stamp)       // data_entrega, status "agendada"
    | ScheduleLoading(date: Stamp)        // data_carregamento only
    | MarkLoaded(at: int)                 // status "em_rota", data_carregada_em, data_em_rota_em
    | Cancel(reason: string)              // status "cancelada", observacoes
    | SetStatus(status: Status)           // status only
    | AssignCarrier(name: Option<string>) // transportadora
    | SetLoadingType(loadingType: LoadingType)
    | MarkLabelCreated(at: int)           // etiqueta_criada, etiqueta_criada_em
    | MarkLabelReceived(at: int)          // etiqueta_recebida, etiqueta_recebida_em

  /** A row after the database has applied `p` to it. */
  function Apply(s: Shipment, p: Patch): (r: Shipment)
    ensures r.id == s.id && r.createdAt == s.createdAt
  {
    match p
    case EditKeys(n, nt, c) => s.(number := n, note := nt, client := c)
    case ScheduleDelivery(d) => s.(deliveryDate := Some(d), status := Scheduled)
    case ScheduleLoading(d) => s.(loadingDate := Some(d))
    case MarkLoaded(t) => s.(status := InTransit, loadedAt := Some(t), inTransitAt := Some(t))
    case Cancel(reason) => s.(status := Cancelled, notes := Some(reason))
    case SetStatus(st) => s.(status := st)
    case AssignCarrier(name) => s.(carrier := name)
    case SetLoadingType(t) => s.(loadingType := Some(t))
    case MarkLabelCreated(t) => s.(labelCreated := Some(true), labelCreatedAt := Some(t))
    case MarkLabelReceived(t) => s.(labelReceived := Some(true), labelReceivedAt := Some(t))
  }

  /** `update(p).eq("id", id)` on the whole table: every row with that id
      is patched, and no row at all when none has it (the client reports no
      error for that). */
  function UpdateWhere(ss: seq<Shipment>, id: string, p: Patch): (r: seq<Shipment>)
  {
    seq(|ss|, i requires 0 <= i < |ss| => if ss[i].id == id then Apply(ss[i], p) else ss[i])
  }

  /** An update keeps every row's id, so the ids stay unique; rows with
      another id are untouched and, on a table with unique ids, the row that
      had `id` is the only one patched. */
  lemma UpdateWhereRows(ss: seq<Shipment>, id: string, p: Patch)
    ensures |UpdateWhere(ss, id, p)| == |ss|
    ensures forall i :: 0 <= i < |ss| ==> UpdateWhere(ss, id, p)[i].id == ss[i].id
    ensures forall i :: 0 <= i < |ss| && ss[i].id != id ==> UpdateWhere(ss, id, p)[i] == ss[i]
    ensures forall i :: 0 <= i < |ss| && ss[i].id == id ==> UpdateWhere(ss, id, p)[i] == Apply(ss[i], p)
    ensures UniqueIds(ss) ==> UniqueIds(UpdateWhere(ss, id, p))
    ensures forall x :: IdInUse(UpdateWhere(ss, id, p), x) <==> IdInUse(ss, x)
  {
    var r := UpdateWhere(ss, id, p);
    forall x ensures IdInUse(r, x) <==> IdInUse(ss, x) {
      if IdInUse(r, x) {
        var i :| 0 <= i < |r| && r[i].id == x;
        assert ss[i].id == x;
      }
      if IdInUse(ss, x) {
        var i :| 0 <= i < |ss| && ss[i].id == x;
        assert r[i].id == x;
      }
    }
  }

  /** `delete().eq("id", id)`: the table without the rows that have `id`. */
  function RemoveWhere(ss: seq<Shipment>, id: string): (r: seq<Shipment>)
  {
    if ss == [] then []
    else if ss[0].id == id then RemoveWhere(ss[1..], id)
    else [ss[0]] + RemoveWhere(ss[1..], id)
  }

  /** Deleting by id leaves exactly the rows with another id, in order. */
  lemma {:induction false} RemoveWhereSpec(ss: seq<Shipment>, id: string)
    ensures Subseq(RemoveWhere(ss, id), ss)
    ensures forall x :: x in RemoveWhere(ss, id) <==> x in ss && x.id != id
    ensures !IdInUse(RemoveWhere(ss, id), id)
  {
    if ss != [] {
      RemoveWhereSpec(ss[1..], id);
      var rest := RemoveWhere(ss[1..], id);
      assert ss == [ss[0]] + ss[1..];
      if ss[0].id != id {
        var r := [ss[0]] + rest;
        assert r[0] == ss[0] && r[1..] == rest;
        assert Subseq(r, ss);
      }
    }
  }

  lemma UniqueTail(ss: seq<Shipment>)
    requires ss != [] && UniqueIds(ss)
    ensures UniqueIds(ss[1..])
    ensures forall x :: x in ss[1..] ==> x.id != ss[0].id
  {
    forall i, j | 0 <= i < j < |ss[1..]| ensures ss[1..][i].id != ss[1..][j].id {
      assert ss[1..][i] == ss[i + 1] && ss[1..][j] == ss[j + 1];
    }
    forall x | x in ss[1..] ensures x.id != ss[0].id {
      var k :| 0 <= k < |ss[1..]| && ss[1..][k] == x;
      assert ss[k + 1] == x;
    }
  }

  /** A row put in front of rows with unique ids, none of them sharing its
      id, keeps the ids unique. */
  lemma UniqueCons(x: Shipment, rest: seq<Shipment>)
    requires UniqueIds(rest) && forall y :: y in rest ==> y.id != x.id
    ensures UniqueIds([x] + rest)
  {
    var r := [x] + rest;
    forall i, j | 0 <= i < j < |r| ensures r[i].id != r[j].id {
      assert r[j] == rest[j - 1];
      if i > 0 {
        assert r[i] == rest[i - 1];
      } else {
        assert r[j] in rest;
      }
    }
  }

  /** Deleting rows keeps the ids of the remaining rows distinct. */
  lemma {:induction false} RemoveWhereUnique(ss: seq<Shipment>, id: string)
    requires UniqueIds(ss)
    ensures UniqueIds(RemoveWhere(ss, id))
  {
    if ss != [] {
      UniqueTail(ss);
      RemoveWhereUnique(ss[1..], id);
      if ss[0].id != id {
        RemoveWhereSpec(ss[1..], id);
        UniqueCons(ss[0], RemoveWhere(ss[1..], id));
      }
    }
  }

  /** The history of one shipment as the table holds it, in table order. */
  function EntriesOf(hs: seq<HistoryEntry>, id: string): (r: seq<HistoryEntry>)
  {
    if hs == [] then []
    else if hs[0].shipmentId == id then [hs[0]] + EntriesOf(hs[1..], id)
    else EntriesOf(hs[1..], id)
  }

  /** `delete().eq("remessa_id", id)` on the history table. */
  function WithoutEntriesOf(hs: seq<HistoryEntry>, id: string): (r: seq<HistoryEntry>)
  {
    if hs == [] then []
    else if hs[0].shipmentId == id then WithoutEntriesOf(hs[1..], id)
    else [hs[0]] + WithoutEntriesOf(hs[1..], id)
  }

  /** Removing the entries of `id` removes exactly those: `id` is left with
      none and every other shipment keeps its whole history. */
  lemma {:induction false} WithoutEntriesOfSpec(hs: seq<HistoryEntry>, id: string, other: string)
    ensures EntriesOf(WithoutEntriesOf(hs, id), id) == []
    ensures other != id ==> EntriesOf(WithoutEntriesOf(hs, id), other) == EntriesOf(hs, other)
    ensures Subseq(WithoutEntriesOf(hs, id), hs)
  {
    if hs != [] {
      WithoutEntriesOfSpec(hs[1..], id, other);
      var rest := WithoutEntriesOf(hs[1..], id);
      if hs[0].shipmentId != id {
        assert ([hs[0]] + rest)[1..] == rest;
      }
    }
  }

  /** Deleting the entries of a shipment a second time removes nothing more. */
  lemma {:induction false} WithoutEntriesOfIdempotent(hs: seq<HistoryEntry>, id: string)
    ensures WithoutEntriesOf(WithoutEntriesOf(hs, id), id) == WithoutEntriesOf(hs, id)
  {
    if hs != [] {
      WithoutEntriesOfIdempotent(hs[1..], id);
      var rest := WithoutEntriesOf(hs[1..], id);
      if hs[0].shipmentId != id {
        assert ([hs[0]] + rest)[1..] == rest;
      }
    }
  }

  /** Every status of the table is canonical: an unknown status only ever
      holds a string outside the eight known ones. */
  predicate AllCanonical(ss: seq<Shipment>) {
    forall s :: s in ss ==> Canonical(s.status)
  }

  /** A patch that writes a status writes a canonical one: a known status,
      or an unknown one whose string is outside the eight. */
  predicate WritesCanonical(p: Patch) {
    p.SetStatus? ==> Canonical(p.status)
  }

  /** An update that writes a canonical status keeps every status canonical. */
  lemma UpdateWhereCanonical(ss: seq<Shipment>, id: string, p: Patch)
    requires AllCanonical(ss) && WritesCanonical(p)
    ensures AllCanonical(UpdateWhere(ss, id, p))
  {
    var r := UpdateWhere(ss, id, p);
    forall x | x in r ensures Canonical(x.status) {
      var i :| 0 <= i < |r| && r[i] == x;
      assert ss[i] in ss;
    }
  }

  /** What a handler reports. `Saved(complete)` says the shipment write
      succeeded and whether every history insert did too. */
  datatype Outcome = Rejected | StoreError | Saved(complete: bool)

  /** A history entry as `registrarHistorico` inserts it. */
  function Entry(id: string, status: string, description: string, now: int): HistoryEntry {
    HistoryEntry(id, status, description, Some(Actor), now)
  }

  /** A shipment as the create and rebill handlers insert it. */
  function NewShipment(id: string, number: string, note: string, client: string, now: int): Shipment {
    Shipment(id, number, note, client, AwaitingScheduling, now, None,
             Some(false), None, Some(false), None, None, None, None, None, None, None)
  }

  /** Whether deleting a shipment row also deletes its history entries
      is the database schema's choice, which no page shows: `cascades`
      is that choice, fixed when the tables are created. */
  class Store {
    var shipments: seq<Shipment>
    var history: seq<HistoryEntry>
    const cascades: bool

    /** Ids are unique and every status is canonical, that is, the one its
        column string reads as; a row may still hold an unknown status. */
    ghost predicate Valid()
      reads this
    {
      UniqueIds(shipments) && AllCanonical(shipments)
    }

    constructor (cascades: bool)
      ensures Valid() && shipments == [] && history == []
      ensures this.cascades == cascades
    {
      shipments := [];
      history := [];
      this.cascades := cascades;
    }

    /** `from("remessas").update(p).eq("id", id)`; `fails` is the error
        the client reports. */
    method Update(id: string, p: Patch, fails: bool) returns (ok: bool)
      requires Valid() && WritesCanonical(p)
      modifies this
      ensures Valid()
      ensures ok == !fails
      ensures shipments == if ok then UpdateWhere(old(shipments), id, p) else old(shipments)
      ensures history == old(history)
    {
      ok := !fails;
      if ok {
        UpdateWhereRows(shipments, id, p);
        UpdateWhereCanonical(shipments, id, p);
        shipments := UpdateWhere(shipments, id, p);
      }
    }

    /** `from("remessas").insert(s)`; the id is the one the database
        assigns, hence not in use. */
    method Insert(s: Shipment, fails: bool) returns (ok: bool)
      requires Valid() && !IdInUse(shipments, s.id) && Canonical(s.status)
      modifies this
      ensures Valid()
      ensures ok == !fails
      ensures shipments == if ok then old(shipments) + [s] else old(shipments)
      ensures history == old(history)
    {
      ok := !fails;
      if ok {
        shipments := shipments + [s];
      }
    }

    /** `from("remessas").delete().eq("id", id)`; with a cascading schema
        the database also deletes the shipment's history entries. */
    method Delete(id: string, fails: bool) returns (ok: bool)
      requires Valid()
      modifies this
      ensures Valid()
      ensures ok == !fails
      ensures shipments == if ok then RemoveWhere(old(shipments), id) else old(shipments)
      ensures history == if ok && cascades then WithoutEntriesOf(old(history), id) else old(history)
    {
      ok := !fails;
      if ok {
        RemoveWhereUnique(shipments, id);
        RemoveWhereSpec(shipments, id);
        shipments := RemoveWhere(shipments, id);
        if cascades {
          history := WithoutEntriesOf(history, id);
        }
      }
    }

    /** `registrarHistorico`: one insert into the history table. Whether it
        succeeds is not up to the caller, who at most logs a failure. */
    method RecordHistory(id: string, status: string, description: string, now: int)
      returns (written: bool)
      modifies this
      ensures shipments == old(shipments)
      ensures history == old(history) + if written then [Entry(id, status, description, now)] else []
    {
      written := *;
      if written {
        history := history + [Entry(id, status, description, now)];
      }
    }

    /** `from("remessa_historico").delete().eq("remessa_id", id)`, whose
        result its caller does not look at. */
    method DeleteHistoryOf(id: string) returns (ok: bool)
      modifies this
      ensures shipments == old(shipments)
      ensures history == if ok then WithoutEntriesOf(old(history), id) else old(history)
    {
      ok := *;
      if ok {
        history := WithoutEntriesOf(history, id);
      }
    }
  }
}
