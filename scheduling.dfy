/** The scheduling page ("agendamentos"): the handlers that create and edit
    shipments and move them through their lifecycle. Each handler checks
    only that its required inputs are filled in, never the current status,
    then writes the shipment row and, if that succeeded, appends its history
    entries; a failed history insert is only logged. `sel` is the row the
    operator selected, as the page last loaded it. */
module Scheduling {
  import opened Text
  import opened Shipments
  import opened Store

  /** The fields the edit form diffs against the selected row, in the order
      remessa, nota, cliente. */
  function EditChanges(sel: Shipment, nr: string, nn: string, cn: string): (r: seq<string>)
    ensures |r| == (if nr != sel.number then 1 else 0) + (if nn != sel.note then 1 else 0)
                   + (if cn != sel.client then 1 else 0)
    ensures nr != sel.number ==> r[0] == "Remessa: " + sel.number + " → " + nr
    ensures cn != sel.client ==> r[|r| - 1] == "Cliente: " + sel.client + " → " + cn
    ensures nn != sel.note ==> r[if nr != sel.number then 1 else 0] == "Nota: " + sel.note + " → " + nn
  {
    (if nr != sel.number then ["Remessa: " + sel.number + " → " + nr] else [])
    + (if nn != sel.note then ["Nota: " + sel.note + " → " + nn] else [])
    + (if cn != sel.client then ["Cliente: " + sel.client + " → " + cn] else [])
  }

  const NoChangeText := "Edição: campos confirmados (sem alteração)."

  function EditDescription(sel: Shipment, nr: string, nn: string, cn: string): string {
    var changes := EditChanges(sel, nr, nn, cn);
    if |changes| > 0 then "Edição: " + Join(changes, " | ") else NoChangeText
  }

  lemma {:induction false} JoinStartsWithFirst(parts: seq<string>, sep: string)
    requires parts != []
    ensures |Join(parts, sep)| >= |parts[0]| && Join(parts, sep)[..|parts[0]|] == parts[0]
  {
  }

  /** The history text is the fixed "no change" note exactly when none of
      the three trimmed fields differs from the selected row. */
  lemma EditDescriptionNoChange(sel: Shipment, nr: string, nn: string, cn: string)
    ensures EditDescription(sel, nr, nn, cn) == NoChangeText
            <==> nr == sel.number && nn == sel.note && cn == sel.client
  {
    var changes := EditChanges(sel, nr, nn, cn);
    if |changes| > 0 {
      JoinStartsWithFirst(changes, " | ");
      var d := EditDescription(sel, nr, nn, cn);
      assert d[8] == changes[0][0];
      assert NoChangeText[8] == 'c';
      assert changes[0][0] in {'R', 'N', 'C'};
    }
  }

  /** A carrier as the selection list loads it. */
  datatype CarrierOption = CarrierOption(id: string, name: string)

  /** `i` is the first position of the list whose id is `id`. */
  predicate FirstMatch(cs: seq<CarrierOption>, id: string, i: int) {
    0 <= i < |cs| && cs[i].id == id && forall j :: 0 <= j < i ==> cs[j].id != id
  }

  lemma FirstMatchUnique(cs: seq<CarrierOption>, id: string, i: int, k: int)
    requires FirstMatch(cs, id, i) && FirstMatch(cs, id, k)
    ensures i == k
  {
  }

  /** A first match in the tail of a list whose head does not match is a
      first match of the whole list, one position later. */
  lemma FirstMatchTail(cs: seq<CarrierOption>, id: string, i: int)
    requires cs != [] && cs[0].id != id && FirstMatch(cs[1..], id, i)
    ensures FirstMatch(cs, id, i + 1)
  {
    forall j | 0 < j <= i ensures cs[j].id != id {
      assert cs[j] == cs[1..][j - 1];
    }
  }

  /** Past a non-matching head, the list holds the id iff its tail does. */
  lemma HasIdTail(cs: seq<CarrierOption>, id: string)
    requires cs != [] && cs[0].id != id
    ensures (exists i :: 0 <= i < |cs| && cs[i].id == id) <==> (exists i :: 0 <= i < |cs[1..]| && cs[1..][i].id == id)
  {
    if exists i :: 0 <= i < |cs| && cs[i].id == id {
      var i :| 0 <= i < |cs| && cs[i].id == id;
      assert cs[1..][i - 1] == cs[i];
    }
    if exists i :: 0 <= i < |cs[1..]| && cs[1..][i].id == id {
      var i :| 0 <= i < |cs[1..]| && cs[1..][i].id == id;
      assert cs[i + 1] == cs[1..][i];
    }
  }

  /** `list.find(t => t.id === id)`. */
  function FindCarrier(cs: seq<CarrierOption>, id: string): (r: Option<CarrierOption>)
    ensures r.Some? <==> exists i :: 0 <= i < |cs| && cs[i].id == id
    ensures r.Some? ==> exists i :: FirstMatch(cs, id, i) && r.value == cs[i]
  {
    if cs == [] then None
    else if cs[0].id == id then (assert FirstMatch(cs, id, 0); Some(cs[0]))
    else
      var r := FindCarrier(cs[1..], id);
      HasIdTail(cs, id);
      if r.Some? then
        var i :| FirstMatch(cs[1..], id, i) && r.value == cs[1..][i];
        FirstMatchTail(cs, id, i);
        assert cs[i + 1] == cs[1..][i];
        r
      else r
  }

  /** `find(...)?.nome || null`: no match and an empty name both give null. */
  function CarrierName(cs: seq<CarrierOption>, id: string): Option<string> {
    var found := FindCarrier(cs, id);
    if found.Some? && found.value.name != "" then Some(found.value.name) else None
  }

  /** The stored carrier is the name of the first list entry with the
      selected id, and null when there is none or its name is empty. */
  lemma CarrierNameSpec(cs: seq<CarrierOption>, id: string)
    ensures CarrierName(cs, id).Some? <==> exists i :: FirstMatch(cs, id, i) && cs[i].name != ""
    ensures CarrierName(cs, id).Some? ==> exists i :: FirstMatch(cs, id, i) && CarrierName(cs, id).value == cs[i].name
  {
    var found := FindCarrier(cs, id);
    if exists i :: FirstMatch(cs, id, i) && cs[i].name != "" {
      var i :| FirstMatch(cs, id, i) && cs[i].name != "";
      var k :| FirstMatch(cs, id, k) && found.value == cs[k];
      FirstMatchUnique(cs, id, i, k);
    }
  }

  /** How the history text renders the stored carrier (`${null}` is "null"). */
  function NameText(name: Option<string>): string {
    if name.Some? then name.value else "null"
  }

  /** The flags the action panel shows for the selected row: a date or
      carrier or loading type counts when the column is truthy, a label only
      when it is exactly `true`. */
  datatype PanelFlags = PanelFlags(
    hasDelivery: bool, hasLoading: bool, hasCarrier: bool, hasLoadingType: bool,
    hasLabelCreated: bool, hasLabelReceived: bool)

  /** `isTrue(v)`: `v === true`. */
  predicate IsTrue(v: Option<bool>) {
    v == Some(true)
  }

  function Flags(s: Shipment): PanelFlags {
    PanelFlags(Present(s.deliveryDate), Present(s.loadingDate),
               s.carrier.Some? && s.carrier.value != "", s.loadingType.Some?,
               IsTrue(s.labelCreated), IsTrue(s.labelReceived))
  }

  /** The label handlers raise their flag and touch no other flag; a new
      shipment starts with every flag down. */
  lemma LabelHandlersRaiseFlags(s: Shipment, t: int)
    ensures var f := Flags(Apply(s, MarkLabelCreated(t)));
      f.hasLabelCreated && f.(hasLabelCreated := false) == Flags(s).(hasLabelCreated := false)
    ensures var f := Flags(Apply(s, MarkLabelReceived(t)));
      f.hasLabelReceived && f.(hasLabelReceived := false) == Flags(s).(hasLabelReceived := false)
  {
  }

  lemma NewShipmentFlags(id: string, number: string, note: string, client: string, now: int)
    ensures Flags(NewShipment(id, number, note, client, now)) == PanelFlags(false, false, false, false, false, false)
  {
  }

  // ------------------------------------------------------------------
  // Handlers
  // ------------------------------------------------------------------

  /** `handleCriarRemessa`: rejected when a field is empty (untrimmed);
      otherwise inserts a shipment awaiting scheduling, with both label
      flags false and no loading type, then writes "Remessa criada.". */
  method CreateShipment(store: Store, number: string, note: string, client: string,
                        newId: string, insertFails: bool, now: int)
    returns (outcome: Outcome, logged: seq<HistoryEntry>)
    requires store.Valid() && !IdInUse(store.shipments, newId)
    modifies store
    ensures store.Valid()
    ensures outcome == if number == "" || note == "" || client == "" then Rejected
                       else if insertFails then StoreError
                       else Saved(logged == CreateEntries(newId, now))
    ensures !outcome.Saved? ==> store.shipments == old(store.shipments) && store.history == old(store.history)
    ensures outcome.Saved? ==>
      && store.shipments == old(store.shipments) + [NewShipment(newId, number, note, client, now)]
      && store.history == old(store.history) + logged
      && Subseq(logged, CreateEntries(newId, now))
  {
    logged := [];
    if number == "" || note == "" || client == "" {
      return Rejected, logged;
    }
    var ok := store.Insert(NewShipment(newId, number, note, client, now), insertFails);
    if !ok {
      return StoreError, logged;
    }
    var written := store.RecordHistory(newId, "aguardando_agendamento", "Remessa criada.", now);
    if written {
      logged := CreateEntries(newId, now);
    }
    outcome := Saved(written);
  }

  function CreateEntries(id: string, now: int): seq<HistoryEntry> {
    [Entry(id, "aguardando_agendamento", "Remessa criada.", now)]
  }

  /** `handleSalvarEdicaoRemessa`: the three fields are trimmed and the edit
      is rejected when one is empty; otherwise only those three columns are
      written and the history lists what differs from the selected row. */
  method EditShipment(store: Store, sel: Shipment, number: string, note: string, client: string,
                      updateFails: bool, now: int)
    returns (outcome: Outcome, logged: seq<HistoryEntry>)
    requires store.Valid()
    modifies store
    ensures store.Valid()
    ensures outcome == if Trim(number) == "" || Trim(note) == "" || Trim(client) == "" then Rejected
                       else if updateFails then StoreError
                       else Saved(logged == EditEntries(sel, Trim(number), Trim(note), Trim(client), now))
    ensures !outcome.Saved? ==> store.shipments == old(store.shipments) && store.history == old(store.history)
    ensures outcome.Saved? ==>
      && store.shipments == UpdateWhere(old(store.shipments), sel.id, EditKeys(Trim(number), Trim(note), Trim(client)))
      && store.history == old(store.history) + logged
      && Subseq(logged, EditEntries(sel, Trim(number), Trim(note), Trim(client), now))
  {
    var nr, nn, cn := Trim(number), Trim(note), Trim(client);
    if nr == "" || nn == "" || cn == "" {
      return Rejected, [];
    }
    var changes := BuildChanges(sel, nr, nn, cn);
    outcome, logged := SaveEdit(store, sel, nr, nn, cn, changes, updateFails, now);
  }

  /** The diff the edit handler builds before writing, one `push` per
      changed field. */
  method BuildChanges(sel: Shipment, nr: string, nn: string, cn: string) returns (changes: seq<string>)
    ensures changes == EditChanges(sel, nr, nn, cn)
  {
    changes := [];
    if nr != sel.number { changes := changes + ["Remessa: " + sel.number + " → " + nr]; }
    if nn != sel.note { changes := changes + ["Nota: " + sel.note + " → " + nn]; }
    if cn != sel.client { changes := changes + ["Cliente: " + sel.client + " → " + cn]; }
  }

  /** The part of the edit handler after its guard, on the trimmed fields. */
  method SaveEdit(store: Store, sel: Shipment, nr: string, nn: string, cn: string,
                  changes: seq<string>, updateFails: bool, now: int)
    returns (outcome: Outcome, logged: seq<HistoryEntry>)
    requires store.Valid() && changes == EditChanges(sel, nr, nn, cn)
    modifies store
    ensures store.Valid()
    ensures outcome == if updateFails then StoreError else Saved(logged == EditEntries(sel, nr, nn, cn, now))
    ensures !outcome.Saved? ==> store.shipments == old(store.shipments) && store.history == old(store.history)
    ensures outcome.Saved? ==>
      && store.shipments == UpdateWhere(old(store.shipments), sel.id, EditKeys(nr, nn, cn))
      && store.history == old(store.history) + logged
      && Subseq(logged, EditEntries(sel, nr, nn, cn, now))
  {
    logged := [];
    var ok := store.Update(sel.id, EditKeys(nr, nn, cn), updateFails);
    if !ok {
      return StoreError, logged;
    }
    var description := if |changes| > 0 then "Edição: " + Join(changes, " | ") else NoChangeText;
    var written := store.RecordHistory(sel.id, "edicao_remessa", description, now);
    if written {
      logged := EditEntries(sel, nr, nn, cn, now);
    }
    outcome := Saved(written);
  }

  function EditEntries(sel: Shipment, nr: string, nn: string, cn: string, now: int): (r: seq<HistoryEntry>)
    ensures |r| == 1 && r[0] == Entry(sel.id, "edicao_remessa", r[0].description, now)
  {
    [Entry(sel.id, "edicao_remessa", EditDescription(sel, nr, nn, cn), now)]
  }

  /** `handleAgendarEntrega`: needs a date; stores it with status "agendada". */
  method ScheduleDeliveryHandler(store: Store, sel: Shipment, input: string, date: Stamp,
                                 updateFails: bool, now: int)
    returns (outcome: Outcome, logged: seq<HistoryEntry>)
    requires store.Valid()
    modifies store
    ensures store.Valid()
    ensures outcome == if input == "" then Rejected else if updateFails then StoreError
                       else Saved(logged == DeliveryEntries(sel.id, input, now))
    ensures !outcome.Saved? ==> store.shipments == old(store.shipments) && store.history == old(store.history)
    ensures outcome.Saved? ==>
      && store.shipments == UpdateWhere(old(store.shipments), sel.id, ScheduleDelivery(date))
      && store.history == old(store.history) + logged
      && Subseq(logged, DeliveryEntries(sel.id, input, now))
  {
    logged := [];
    if input == "" {
      return Rejected, logged;
    }
    var ok := store.Update(sel.id, ScheduleDelivery(date), updateFails);
    if !ok {
      return StoreError, logged;
    }
    var written := store.RecordHistory(sel.id, "agendada", "Entrega agendada para " + input, now);
    if written {
      logged := DeliveryEntries(sel.id, input, now);
    }
    outcome := Saved(written);
  }

  function DeliveryEntries(id: string, input: string, now: int): seq<HistoryEntry> {
    [Entry(id, "agendada", "Entrega agendada para " + input, now)]
  }

  /** `handleAgendarCarregamento`: needs a date; stores it and leaves the
      status alone. */
  method ScheduleLoadingHandler(store: Store, sel: Shipment, input: string, date: Stamp,
                                updateFails: bool, now: int)
    returns (outcome: Outcome, logged: seq<HistoryEntry>)
    requires store.Valid()
    modifies store
    ensures store.Valid()
    ensures outcome == if input == "" then Rejected else if updateFails then StoreError
                       else Saved(logged == LoadingEntries(sel.id, input, now))
    ensures !outcome.Saved? ==> store.shipments == old(store.shipments) && store.history == old(store.history)
    ensures outcome.Saved? ==>
      && store.shipments == UpdateWhere(old(store.shipments), sel.id, ScheduleLoading(date))
      && store.history == old(store.history) + logged
      && Subseq(logged, LoadingEntries(sel.id, input, now))
  {
    logged := [];
    if input == "" {
      return Rejected, logged;
    }
    var ok := store.Update(sel.id, ScheduleLoading(date), updateFails);
    if !ok {
      return StoreError, logged;
    }
    var written := store.RecordHistory(sel.id, "carregamento_agendado", "Carregamento agendado para " + input, now);
    if written {
      logged := LoadingEntries(sel.id, input, now);
    }
    outcome := Saved(written);
  }

  function LoadingEntries(id: string, input: string, now: int): seq<HistoryEntry> {
    [Entry(id, "carregamento_agendado", "Carregamento agendado para " + input, now)]
  }

  /** `handleMarcarCarregada`: no input and no status check; sets "em_rota"
      and both timestamps to the same instant, then writes two entries,
      "carregada" before "em_rota", each of which may fail on its own. */
  method MarkLoadedHandler(store: Store, sel: Shipment, updateFails: bool, now: int)
    returns (outcome: Outcome, logged: seq<HistoryEntry>)
    requires store.Valid()
    modifies store
    ensures store.Valid()
    ensures outcome == if updateFails then StoreError else Saved(logged == LoadedEntries(sel.id, now))
    ensures !outcome.Saved? ==> store.shipments == old(store.shipments) && store.history == old(store.history)
    ensures outcome.Saved? ==>
      && store.shipments == UpdateWhere(old(store.shipments), sel.id, MarkLoaded(now))
      && store.history == old(store.history) + logged
      && Subseq(logged, LoadedEntries(sel.id, now))
  {
    logged := [];
    var ok := store.Update(sel.id, MarkLoaded(now), updateFails);
    if !ok {
      return StoreError, logged;
    }
    var e1 := Entry(sel.id, "carregada", "Remessa carregada.", now);
    var e2 := Entry(sel.id, "em_rota", "Remessa saiu para rota.", now);
    var w1 := store.RecordHistory(sel.id, "carregada", "Remessa carregada.", now);
    var w2 := store.RecordHistory(sel.id, "em_rota", "Remessa saiu para rota.", now);
    logged := (if w1 then [e1] else []) + (if w2 then [e2] else []);
    assert Subseq([e2], [e1, e2]) by { assert [e1, e2][1..] == [e2]; }
    assert Subseq([e1], [e1, e2]) by { assert [e1][1..] == []; }
    assert Subseq([], [e1, e2]);
    outcome := Saved(w1 && w2);
  }

  function LoadedEntries(id: string, now: int): seq<HistoryEntry> {
    [Entry(id, "carregada", "Remessa carregada.", now), Entry(id, "em_rota", "Remessa saiu para rota.", now)]
  }

  /** `handleCancelar`: needs a reason; sets "cancelada" and keeps the
      reason in the notes column. */
  method CancelHandler(store: Store, sel: Shipment, reason: string, updateFails: bool, now: int)
    returns (outcome: Outcome, logged: seq<HistoryEntry>)
    requires store.Valid()
    modifies store
    ensures store.Valid()
    ensures outcome == if reason == "" then Rejected else if updateFails then StoreError
                       else Saved(logged == CancelEntries(sel.id, reason, now))
    ensures !outcome.Saved? ==> store.shipments == old(store.shipments) && store.history == old(store.history)
    ensures outcome.Saved? ==>
      && store.shipments == UpdateWhere(old(store.shipments), sel.id, Cancel(reason))
      && store.history == old(store.history) + logged
      && Subseq(logged, CancelEntries(sel.id, reason, now))
  {
    logged := [];
    if reason == "" {
      return Rejected, logged;
    }
    var ok := store.Update(sel.id, Cancel(reason), updateFails);
    if !ok {
      return StoreError, logged;
    }
    var written := store.RecordHistory(sel.id, "cancelada", "Cancelada. Motivo: " + reason, now);
    if written {
      logged := CancelEntries(sel.id, reason, now);
    }
    outcome := Saved(written);
  }

  function CancelEntries(id: string, reason: string, now: int): seq<HistoryEntry> {
    [Entry(id, "cancelada", "Cancelada. Motivo: " + reason, now)]
  }

  /** `handleRefaturar`: needs both new numbers. Marks the selected row
      "refaturada", then inserts its replacement awaiting scheduling with
      the selected row's client, then writes one entry on each. The two
      writes are not atomic: when the insert fails the old row stays
      "refaturada" and no history is written. */
  method RebillHandler(store: Store, sel: Shipment, newNumber: string, newNote: string,
                       newId: string, updateFails: bool, insertFails: bool, now: int)
    returns (outcome: Outcome, logged: seq<HistoryEntry>)
    requires store.Valid() && !IdInUse(store.shipments, newId)
    modifies store
    ensures store.Valid()
    ensures outcome == if newNumber == "" || newNote == "" then Rejected
                       else if updateFails || insertFails then StoreError
                       else Saved(logged == RebillEntries(sel, newNumber, newNote, newId, now))
    ensures outcome == Rejected || (outcome == StoreError && updateFails) ==>
      store.shipments == old(store.shipments) && store.history == old(store.history)
    ensures outcome == StoreError && !updateFails ==>
      store.shipments == UpdateWhere(old(store.shipments), sel.id, SetStatus(Rebilled))
      && store.history == old(store.history)
    ensures outcome.Saved? ==>
      && store.shipments == UpdateWhere(old(store.shipments), sel.id, SetStatus(Rebilled))
                            + [NewShipment(newId, newNumber, newNote, sel.client, now)]
      && store.history == old(store.history) + logged
      && Subseq(logged, RebillEntries(sel, newNumber, newNote, newId, now))
  {
    logged := [];
    if newNumber == "" || newNote == "" {
      return Rejected, logged;
    }
    var ok := store.Update(sel.id, SetStatus(Rebilled), updateFails);
    if !ok {
      return StoreError, logged;
    }
    UpdateWhereRows(old(store.shipments), sel.id, SetStatus(Rebilled));
    ok := store.Insert(NewShipment(newId, newNumber, newNote, sel.client, now), insertFails);
    if !ok {
      return StoreError, logged;
    }
    var e1 := Entry(sel.id, "refaturada", "Refaturada → Nova remessa " + newNumber + ", nova nota " + newNote, now);
    var e2 := Entry(newId, "aguardando_agendamento", "Criada a partir da remessa " + sel.number, now);
    var w1 := store.RecordHistory(e1.shipmentId, e1.status, e1.description, now);
    var w2 := store.RecordHistory(e2.shipmentId, e2.status, e2.description, now);
    logged := (if w1 then [e1] else []) + (if w2 then [e2] else []);
    assert Subseq([e2], [e1, e2]) by { assert [e1, e2][1..] == [e2]; }
    assert Subseq([e1], [e1, e2]) by { assert [e1][1..] == []; }
    assert Subseq([], [e1, e2]);
    outcome := Saved(w1 && w2);
  }

  function RebillEntries(sel: Shipment, newNumber: string, newNote: string, newId: string, now: int): seq<HistoryEntry> {
    [Entry(sel.id, "refaturada", "Refaturada → Nova remessa " + newNumber + ", nova nota " + newNote, now),
     Entry(newId, "aguardando_agendamento", "Criada a partir da remessa " + sel.number, now)]
  }

  /** `handleDefinirTransportadora`: needs a selected carrier id; stores the
      name found for it in the loaded carrier list, or null. */
  method AssignCarrierHandler(store: Store, sel: Shipment, carrierId: string, carriers: seq<CarrierOption>,
                              updateFails: bool, now: int)
    returns (outcome: Outcome, logged: seq<HistoryEntry>)
    requires store.Valid()
    modifies store
    ensures store.Valid()
    ensures outcome == if carrierId == "" then Rejected else if updateFails then StoreError
                       else Saved(logged == CarrierEntries(sel.id, CarrierName(carriers, carrierId), now))
    ensures !outcome.Saved? ==> store.shipments == old(store.shipments) && store.history == old(store.history)
    ensures outcome.Saved? ==>
      && store.shipments == UpdateWhere(old(store.shipments), sel.id, AssignCarrier(CarrierName(carriers, carrierId)))
      && store.history == old(store.history) + logged
      && Subseq(logged, CarrierEntries(sel.id, CarrierName(carriers, carrierId), now))
  {
    logged := [];
    if carrierId == "" {
      return Rejected, logged;
    }
    var name := CarrierName(carriers, carrierId);
    var ok := store.Update(sel.id, AssignCarrier(name), updateFails);
    if !ok {
      return StoreError, logged;
    }
    var written := store.RecordHistory(sel.id, "transportadora_definida", "Transportadora definida: " + NameText(name), now);
    if written {
      logged := CarrierEntries(sel.id, name, now);
    }
    outcome := Saved(written);
  }

  function CarrierEntries(id: string, name: Option<string>, now: int): seq<HistoryEntry> {
    [Entry(id, "transportadora_definida", "Transportadora definida: " + NameText(name), now)]
  }

  /** `handleDefinirTipoCarregamento`: needs PALETIZADA or BATIDA chosen
      (`None` is the empty choice). */
  method SetLoadingTypeHandler(store: Store, sel: Shipment, choice: Option<LoadingType>,
                               updateFails: bool, now: int)
    returns (outcome: Outcome, logged: seq<HistoryEntry>)
    requires store.Valid()
    modifies store
    ensures store.Valid()
    ensures outcome == if choice.None? then Rejected else if updateFails then StoreError
                       else Saved(logged == LoadingTypeEntries(sel.id, choice.value, now))
    ensures !outcome.Saved? ==> store.shipments == old(store.shipments) && store.history == old(store.history)
    ensures outcome.Saved? ==>
      && store.shipments == UpdateWhere(old(store.shipments), sel.id, SetLoadingType(choice.value))
      && store.history == old(store.history) + logged
      && Subseq(logged, LoadingTypeEntries(sel.id, choice.value, now))
  {
    logged := [];
    if choice.None? {
      return Rejected, logged;
    }
    var ok := store.Update(sel.id, SetLoadingType(choice.value), updateFails);
    if !ok {
      return StoreError, logged;
    }
    var written := store.RecordHistory(sel.id, "tipo_carregamento",
      "Tipo de carregamento definido como " + LoadingTypeText(choice.value), now);
    if written {
      logged := LoadingTypeEntries(sel.id, choice.value, now);
    }
    outcome := Saved(written);
  }

  function LoadingTypeEntries(id: string, t: LoadingType, now: int): seq<HistoryEntry> {
    [Entry(id, "tipo_carregamento", "Tipo de carregamento definido como " + LoadingTypeText(t), now)]
  }

  /** `handleEtiquetaCriada`: no precondition in the handler itself. */
  method LabelCreatedHandler(store: Store, sel: Shipment, updateFails: bool, now: int)
    returns (outcome: Outcome, logged: seq<HistoryEntry>)
    requires store.Valid()
    modifies store
    ensures store.Valid()
    ensures outcome == if updateFails then StoreError else Saved(logged == LabelCreatedEntries(sel.id, now))
    ensures !outcome.Saved? ==> store.shipments == old(store.shipments) && store.history == old(store.history)
    ensures outcome.Saved? ==>
      && store.shipments == UpdateWhere(old(store.shipments), sel.id, MarkLabelCreated(now))
      && store.history == old(store.history) + logged
      && Subseq(logged, LabelCreatedEntries(sel.id, now))
  {
    logged := [];
    var ok := store.Update(sel.id, MarkLabelCreated(now), updateFails);
    if !ok {
      return StoreError, logged;
    }
    var written := store.RecordHistory(sel.id, "etiqueta_criada", "Etiqueta da nota/remessa foi criada.", now);
    if written {
      logged := LabelCreatedEntries(sel.id, now);
    }
    outcome := Saved(written);
  }

  function LabelCreatedEntries(id: string, now: int): seq<HistoryEntry> {
    [Entry(id, "etiqueta_criada", "Etiqueta da nota/remessa foi criada.", now)]
  }

  /** `handleEtiquetaRecebida`: no precondition in the handler itself. */
  method LabelReceivedHandler(store: Store, sel: Shipment, updateFails: bool, now: int)
    returns (outcome: Outcome, logged: seq<HistoryEntry>)
    requires store.Valid()
    modifies store
    ensures store.Valid()
    ensures outcome == if updateFails then StoreError else Saved(logged == LabelReceivedEntries(sel.id, now))
    ensures !outcome.Saved? ==> store.shipments == old(store.shipments) && store.history == old(store.history)
    ensures outcome.Saved? ==>
      && store.shipments == UpdateWhere(old(store.shipments), sel.id, MarkLabelReceived(now))
      && store.history == old(store.history) + logged
      && Subseq(logged, LabelReceivedEntries(sel.id, now))
  {
    logged := [];
    var ok := store.Update(sel.id, MarkLabelReceived(now), updateFails);
    if !ok {
      return StoreError, logged;
    }
    var written := store.RecordHistory(sel.id, "etiqueta_recebida", "Etiqueta recebida e confirmada.", now);
    if written {
      logged := LabelReceivedEntries(sel.id, now);
    }
    outcome := Saved(written);
  }

  function LabelReceivedEntries(id: string, now: int): seq<HistoryEntry> {
    [Entry(id, "etiqueta_recebida", "Etiqueta recebida e confirmada.", now)]
  }

  /** `excluirRemessa` (after the operator confirms): deletes the row only.
      This page issues no delete on the history table, so the shipment's
      entries go only when the schema cascades the delete. */
  method DeleteShipmentHandler(store: Store, sel: Shipment, deleteFails: bool)
    returns (ok: bool)
    requires store.Valid()
    modifies store
    ensures store.Valid()
    ensures ok == !deleteFails
    ensures store.shipments == if ok then RemoveWhere(old(store.shipments), sel.id) else old(store.shipments)
    ensures store.history ==
      if ok && store.cascades then WithoutEntriesOf(old(store.history), sel.id) else old(store.history)
  {
    ok := store.Delete(sel.id, deleteFails);
  }
}
