# Shipment dashboard core

A model of the shipment ("remessa") logic of a logistics dashboard. The
dashboard has five pages over two tables, the shipments and their
append-only history:

- **agendamentos**: scheduling. It creates, edits and deletes shipments and moves them through their statuses. Each action writes history.
- **pendencias**: the problems detected on each shipment, with counters, filters and a priority order.
- **acompanhamento**: tracking. It lists shipments with a late marker and a status-group filter, and can confirm delivery or delete.
- **cancelados**: the cancelled shipments. Each carries when and by whom it was cancelled, read from the history. The page has a period, text and carrier filter, a seven-day counter and a restore action.
- **calendario**: month navigation, the loading and delivery events of each day, and the alerts shown beside the calendar.

Modules:

- `Text`: the string operations the pages rely on.
  - `trim()` over the JavaScript whitespace set.
  - Lower-casing.
  - Substring search.
  - The lexicographic `<` the calendar uses on date strings.
- `Shipments`: the domain types.
  - The status, with an `Other` case for unknown strings.
  - The date columns. Each is an optional `Stamp`: the stored text plus the instant it parses to, where `None` stands for an invalid date.
  - Carrier keys, text search, and the subsequence relation.
- `Store`: the two tables as a class whose methods update them.
  - `Update`, `Insert` and `Delete` are the writes on the shipment table.
  - The store keeps ids unique and every status canonical: a row may hold an unknown status, but only for a string outside the eight known ones, so each status is the one its column string reads as.
  - No page shows the database schema, so whether deleting a shipment also deletes its history entries is the store's `cascades` flag, fixed when the store is created.
  - `RecordHistory` is `registrarHistorico`. Its success is not up to the caller.
- `Scheduling`: the agendamentos handlers, one method per handler. Each states three things:
  - the outcome: rejected, store error, or saved;
  - the new tables;
  - the history entries it wrote, a subsequence of those it tries to write.
- `Views`: the history grouping, the last-two slice and the carrier filter options.
- `Pendencies`: detector, counters, filter and in-place sort.
- `Tracking`, `Cancellations`, `Calendar`: the remaining pages.

Instants are integers and "now" is a parameter. A failed primary write is an
input of each handler. A failed history insert is chosen nondeterministically:
the source only logs it.

In these points the model follows the code, which a reader might not expect:

- Rebilling (`handleRefaturar`) is not atomic. The old shipment is marked "refaturada" first and the replacement is inserted afterwards. If the insert fails, the old row stays rebilled and no history is written (`Scheduling.RebillHandler`).
- Updating or deleting an id that no longer exists is not an error for the data client. The handlers do not require the selected id to be present.
- The cancellations page reads the history timestamp column `created_at`. The other pages order by `criado_em`. The model has one `createdAt` field.
- Deleting from the tracking page removes the history first, without looking at the result, and only then the shipment. A failure of the second delete leaves the shipment without history (`Tracking.RemoveShipment`).

## Model

| member | source | states |
|---|---|---|
| Shipments.ParseStatus | app/pendencias/page.tsx:58-79 | reads a status column: the eight strings the pages compare against become their status, any other string is kept as an unknown status; the result writes back as the same string and is canonical |
| Shipments.CarrierKey | app/pendencias/page.tsx:262-265 | the carrier key lists show and filter on: never empty, either "Sem transportadora" or the trimmed column value |
| Shipments.SearchMatches | app/acompanhamento/page.tsx:232-236 | the list search: a blank query matches everything, otherwise the lower-cased query (untrimmed) must occur in the lower-cased "remessa nota cliente" text |
| Shipments.StatusRoundTrip | app/pendencias/page.tsx:58-79 | parsing the stored text of a known status gives that status back |
| Shipments.StatusTextInjective | app/pendencias/page.tsx:58-79 | different known statuses have different stored texts |
| Shipments.CarrierKeysAgree | app/pendencias/page.tsx:262-265 | the carrier key (`trim()`, blank → "Sem transportadora") is the same whether computed from the raw or the optional column |
| Text.Trim | app/agendamentos/page.tsx:282-284 | `trim()`: strips the ECMAScript whitespace set from both ends |
| Text.Lower | app/cancelados/page.tsx:262-266 | `toLowerCase()`: same length, each character mapped by the letter mapping |
| Text.Contains | app/acompanhamento/page.tsx:235 | `includes(q)`: `q` occurs at some position of the text |
| Text.StrLess | app/calendario/page.tsx:150-155 | the `<` on date strings: lexicographic order with a proper prefix smaller |
| Text.TrimBounds | app/agendamentos/page.tsx:282-284 | `trim()` returns a contiguous slice whose ends are not whitespace, and everything cut away is whitespace |
| Text.TrimEmptyIffBlank | app/agendamentos/page.tsx:282-286 | a trimmed field is empty iff every character is whitespace |
| Text.TrimIdempotent | app/cancelados/page.tsx:253-254 | trimming twice equals trimming once |
| Text.LowerIdempotent | app/cancelados/page.tsx:262-266 | lower-casing twice equals lower-casing once |
| Text.StrLessTransitive | app/calendario/page.tsx:150-155 | the date-string comparison is transitive |
| Text.StrLessTotal | app/calendario/page.tsx:150-155 | of two different strings, one is less than the other |
| Store.Apply | app/agendamentos/page.tsx:295-664 | the row after one of the handlers' `update({...})` payloads: the columns each payload names change, and the id and creation date never do |
| Store.UpdateWhere | app/agendamentos/page.tsx:419-426 | `update(p).eq("id", id)`: every row with that id patched, every other row as it was |
| Store.RemoveWhere | app/agendamentos/page.tsx:675 | `delete().eq("id", id)`: the table without the rows that have that id |
| Store.UpdateWhereCanonical | app/agendamentos/page.tsx:419-426 | an update that writes a canonical status keeps every status of the table canonical |
| Store.WithoutEntriesOfIdempotent | app/acompanhamento/page.tsx:331-342 | deleting a shipment's history a second time, as a cascading shipment delete would after the page's own delete, removes nothing more |
| Store.UpdateWhereRows | app/agendamentos/page.tsx:419-426 | an update by id keeps the length and every row's id; it patches exactly the rows with that id; unique ids stay unique |
| Store.RemoveWhereSpec | app/agendamentos/page.tsx:675 | a delete by id keeps, in order, exactly the rows with another id |
| Store.RemoveWhereUnique | app/agendamentos/page.tsx:675 | deleting rows keeps the remaining ids unique |
| Store.WithoutEntriesOfSpec | app/acompanhamento/page.tsx:331 | deleting a shipment's history removes all its entries and leaves every other shipment's history as it was |
| Store.Store.Update | app/agendamentos/page.tsx:419-428 | on success the table is the old one with the patch applied to the rows of the id, with ids unique and statuses canonical; on failure nothing changes |
| Store.Store.Insert | app/agendamentos/page.tsx:255-263 | given an id not in use, on success the new row is appended and ids stay unique; the history is untouched |
| Store.Store.Delete | app/agendamentos/page.tsx:675-676 | on success the rows of the id are gone and ids stay unique; the shipment's history goes too exactly when the schema cascades; on failure nothing changes |
| Store.Store.RecordHistory | app/agendamentos/page.tsx:173-186 | appends the entry with the user "karimex", or nothing; the shipments are untouched |
| Scheduling.CreateShipment | app/agendamentos/page.tsx:235-276 | rejected when a field is empty; otherwise the new shipment awaits scheduling with no labels, dates or loading type and one "aguardando_agendamento" entry at most is logged |
| Scheduling.NewShipmentFlags | app/agendamentos/page.tsx:689-700 | every panel flag of a new shipment is off |
| Scheduling.EditChanges | app/agendamentos/page.tsx:295-298 | one change text per changed field, in the order remessa, nota, cliente, each naming the old and new value |
| Scheduling.BuildChanges | app/agendamentos/page.tsx:295-298 | the loop builds exactly the change list |
| Scheduling.EditDescriptionNoChange | app/agendamentos/page.tsx:309-313 | the description is the fixed "sem alteração" text iff none of the three fields changed |
| Scheduling.EditShipment | app/agendamentos/page.tsx:279-334 | rejected when a trimmed field is empty; otherwise only number, note and client change, to their trimmed values, and one "edicao_remessa" entry at most is logged |
| Scheduling.ScheduleDeliveryHandler | app/agendamentos/page.tsx:337-373 | needs a date; sets the delivery date and status "agendada"; a failed update writes no history |
| Scheduling.ScheduleLoadingHandler | app/agendamentos/page.tsx:375-409 | needs a date; sets only the loading date, leaving the status as it was |
| Scheduling.MarkLoadedHandler | app/agendamentos/page.tsx:411-449 | from any status, sets "em_rota" with the loaded and in-transit instants equal; logs "carregada" then "em_rota" |
| Scheduling.CancelHandler | app/agendamentos/page.tsx:451-485 | needs a reason; sets "cancelada" and stores the reason in the notes |
| Scheduling.RebillHandler | app/agendamentos/page.tsx:487-530 | needs both numbers; marks the row "refaturada", appends its replacement awaiting scheduling with the same client, and logs one entry on each; an insert failure leaves the first write in place |
| Scheduling.CarrierName | app/agendamentos/page.tsx:542-543 | `find(...)?.nome`, or null: the name of the first carrier with the selected id, null when none has it or its name is empty |
| Scheduling.FindCarrier | app/agendamentos/page.tsx:542-543 | finds a carrier iff the list has the id, and then the first entry with it |
| Scheduling.CarrierNameSpec | app/agendamentos/page.tsx:542-548 | the stored name is the first matching entry's name, null when there is none or it is empty |
| Scheduling.AssignCarrierHandler | app/agendamentos/page.tsx:532-565 | needs a selection; stores that name and logs it |
| Scheduling.SetLoadingTypeHandler | app/agendamentos/page.tsx:567-594 | needs "PALETIZADA" or "BATIDA"; stores it and logs it |
| Scheduling.LabelCreatedHandler | app/agendamentos/page.tsx:596-629 | sets the label-created flag and instant |
| Scheduling.LabelReceivedHandler | app/agendamentos/page.tsx:631-664 | sets the label-received flag and instant |
| Scheduling.Flags | app/agendamentos/page.tsx:689-700 | the panel's six flags: truthiness of the two dates, the carrier and the loading type, and `=== true` of the two label columns |
| Scheduling.LabelHandlersRaiseFlags | app/agendamentos/page.tsx:689-700 | after a label action its panel flag is on and the other flags are as before |
| Scheduling.DeleteShipmentHandler | app/agendamentos/page.tsx:666-686 | on success the shipment is gone; the page deletes no history, so its entries go only when the schema cascades |
| Views.GroupHistory | app/pendencias/page.tsx:198-206 | a shipment is a key iff it has history, and maps to exactly its entries in table order |
| Views.EntriesOfSpec | app/acompanhamento/page.tsx:188-196 | a shipment's history is the subsequence of entries with its id; it is empty iff no entry has that id |
| Views.HistoryOfGrouped | app/acompanhamento/page.tsx:451 | reading the grouped map, with missing ids read as empty, gives the shipment's history |
| Views.LastTwo | app/acompanhamento/page.tsx:452 | the card shows a suffix of the history of length two, or all of it when shorter |
| Views.CarrierOptions | app/pendencias/page.tsx:259-269 | the options are strictly ascending and contain exactly the carrier keys of the shipments |
| Views.OptionsSelectSomething | app/pendencias/page.tsx:294-300 | every offered carrier keeps at least one shipment |
| Pendencies.Applies | app/pendencias/page.tsx:213-253 | the five tests of the detector, one per pendency kind, on one shipment at instant `now` |
| Pendencies.Base | app/pendencias/page.tsx:209-256 | `pendenciasBase`: each shipment's pendencies in check order, shipments in list order |
| Pendencies.CheckIndex | app/pendencias/page.tsx:213-253 | the position of each kind in the detector's check order |
| Pendencies.EmitFor | app/pendencias/page.tsx:213-253 | the five tests on one shipment produce exactly its pendencies |
| Pendencies.DetectPendencies | app/pendencias/page.tsx:209-256 | the loop produces the shipments' pendencies in list order |
| Pendencies.EmitSpec | app/pendencias/page.tsx:213-253 | a shipment has a pendency of a kind iff the kind's condition holds for it |
| Pendencies.EmitInCheckOrder | app/pendencias/page.tsx:213-253 | within one shipment the kinds appear in the fixed check order, none twice |
| Pendencies.BaseAppend | app/pendencias/page.tsx:210-255 | the detector over a concatenation is the concatenation of the detector's results |
| Pendencies.BaseMembers | app/pendencias/page.tsx:209-256 | a pendency is listed iff its shipment is listed and its kind applies |
| Pendencies.NoMissingAndOverdueLoading | app/pendencias/page.tsx:220-244 | no shipment has both a missing and an overdue loading date |
| Pendencies.CancelledAndDeliveredQuiet | app/pendencias/page.tsx:213-253 | a cancelled shipment has no pendency; a delivered one can only lack a delivery date |
| Pendencies.CountKindEmit | app/pendencias/page.tsx:213-253 | each shipment contributes one pendency of a kind if it applies, none otherwise |
| Pendencies.CountKindBase | app/pendencias/page.tsx:272-281 | each per-kind counter equals the number of shipments the kind applies to |
| Pendencies.TotalIsSumOfKinds | app/pendencias/page.tsx:272-281 | the total counter is the sum of the five per-kind counts |
| Pendencies.KpisCountShipments | app/pendencias/page.tsx:272-281 | the KPIs shown count shipments: each per-kind card the shipments the kind applies to, and the total card the sum of those counts over all five kinds |
| Pendencies.Keeps | app/pendencias/page.tsx:286-310 | a pendency passes the kind filter ("todas" or equal kind), the carrier-key filter and the list search |
| Pendencies.FilterPendencies | app/pendencias/page.tsx:284-313 | `pendenciasFiltradas`: the pendencies that pass, in order |
| Pendencies.CountKind | app/pendencias/page.tsx:272-281 | the number of pendencies of one kind, at most the list's length |
| Pendencies.ComputeKpis | app/pendencias/page.tsx:272-281 | the KPI cards: the total and three per-kind counts, which together never exceed the total |
| Pendencies.FilterPendenciesSpec | app/pendencias/page.tsx:284-313 | the filtered list is a subsequence holding exactly the pendencies that pass the kind, carrier and text tests |
| Pendencies.ClearedFiltersKeepAll | app/pendencias/page.tsx:284-313 | with every filter cleared the list is unchanged |
| Pendencies.KindFilterMatchesCounter | app/pendencias/page.tsx:272-313 | filtering on one kind shows as many rows as that kind's counter |
| Pendencies.Weight | app/pendencias/page.tsx:318-331 | `pesoTipo`: overdue delivery 1, overdue loading 2, missing delivery date 3, missing loading date 4, awaiting scheduling 5 |
| Pendencies.InOrder | app/pendencias/page.tsx:334-344 | the comparator does not put the first pendency after the second: lower weight, or equal weight and an older or equally old shipment |
| Pendencies.InOrderTotal | app/pendencias/page.tsx:334-344 | the comparator relates any two pendencies one way or the other |
| Pendencies.InOrderTransitive | app/pendencias/page.tsx:334-344 | the comparator is transitive |
| Pendencies.TiesWithAppend | app/pendencias/page.tsx:334-344 | the pendencies tied with a given one, in order, split over a concatenation |
| Pendencies.SwapKeepsTies | app/pendencias/page.tsx:334-344 | exchanging two neighbours the comparator orders strictly leaves every tie class, in order, unchanged |
| Pendencies.SiftDown | app/pendencias/page.tsx:334-344 | one insertion step extends the sorted prefix, permutes the array and keeps tied pendencies in their order |
| Pendencies.SortPendencies | app/pendencias/page.tsx:316-347 | the array ends sorted by weight then creation instant, is a permutation of the input, and is stable: pendencies that tie keep their input order, as `Array.prototype.sort` must |
| Pendencies.OrderedPendencies | app/pendencias/page.tsx:316-347 | the shown order is a sorted permutation of the filtered list in which tied pendencies keep their filtered order |
| Pendencies.OverdueDeliveriesFirst | app/pendencias/page.tsx:318-331 | in the shown order every overdue delivery precedes every other kind |
| Tracking.IsLate | app/acompanhamento/page.tsx:92-107 | `isRemessaAtrasada`: a truthy delivery date that parses to an instant before now, on a shipment neither delivered, cancelled nor rebilled |
| Tracking.LateIffDeliveryOverdue | app/acompanhamento/page.tsx:92-107 | the late marker holds iff the detector's overdue-delivery test holds and the shipment is not rebilled |
| Tracking.LateShipmentIsPending | app/acompanhamento/page.tsx:92-107 | a late shipment is listed as an overdue delivery on the pendencies page |
| Tracking.RebilledOverdueNotLate | app/acompanhamento/page.tsx:96-98 | a rebilled shipment past its date is pending but not marked late |
| Tracking.InGroup | app/acompanhamento/page.tsx:212-225 | the status-group filter: "todos" keeps every status, each other group its two or one statuses |
| Tracking.GroupsPartitionStatuses | app/acompanhamento/page.tsx:212-225 | a status lies in at most one group other than "todos", and unknown statuses in none |
| Tracking.EveryKnownStatusHasAGroup | app/acompanhamento/page.tsx:212-225 | every known status lies in some group |
| Tracking.Keeps | app/acompanhamento/page.tsx:211-239 | a row passes the status group, the carrier key (the trimmed name, else "Sem transportadora") and the list search |
| Tracking.FilterShipments | app/acompanhamento/page.tsx:210-240 | `remessasFiltradas`: the rows that pass, in order |
| Tracking.FilterShipmentsSpec | app/acompanhamento/page.tsx:210-240 | the filtered list is a subsequence holding exactly the shipments that pass the group, carrier and search tests |
| Tracking.FieldMatchIsSearchMatch | app/acompanhamento/page.tsx:227-239 | a query found in the number, note or client matches the row |
| Tracking.MarkDelivered | app/acompanhamento/page.tsx:259-321 | on success only the status of the selected id becomes "entregue", in the store and the page's list; a failed update logs nothing |
| Tracking.DeliveredOnlyChangesStatus | app/acompanhamento/page.tsx:281-314 | confirming delivery changes no field but the selected row's status |
| Tracking.DeliveredNeverLate | app/acompanhamento/page.tsx:92-107 | after confirming delivery the row is not late |
| Tracking.RemoveShipment | app/acompanhamento/page.tsx:325-349 | on success the shipment and exactly its history leave the page's lists |
| Tracking.RemovedFromView | app/acompanhamento/page.tsx:341-342 | after a delete no row or entry of the shipment remains, and every other shipment keeps its row and history |
| Cancellations.IsCancellation | app/cancelados/page.tsx:110-111 | an entry is a cancellation when its status, lower-cased and trimmed, is "cancelada" |
| Cancellations.Latest | app/cancelados/page.tsx:109-129 | the fold for one trimmed shipment id: the first cancellation entry seen, replaced only by a strictly newer one |
| Cancellations.LatestNone | app/cancelados/page.tsx:104-129 | the fold finds nothing for a shipment iff it has no cancellation entry |
| Cancellations.LatestSpec | app/cancelados/page.tsx:113-128 | the fold keeps the newest cancellation entry, the first seen on a tie |
| Cancellations.FoldCancellations | app/cancelados/page.tsx:104-129 | the loop's map has a key iff the fold finds an entry, and holds that entry's time and user |
| Cancellations.Annotate | app/cancelados/page.tsx:131-138 | `comCancelamento`: every shipment in order, with the instant and user of its kept entry, or nulls |
| Cancellations.AnnotateSpec | app/cancelados/page.tsx:131-138 | the list keeps its length and each row gets its shipment's latest cancellation, or none |
| Cancellations.TextMatches | app/cancelados/page.tsx:261-268 | the text search: a blank query matches, otherwise the trimmed lower-cased query occurs in the lower-cased number, note or client |
| Cancellations.InPeriod | app/cancelados/page.tsx:270-287 | the period filter: with a bound set an undated row is out, and a dated row is out when before the start or after the end; an unparsable bound lets every dated row through |
| Cancellations.FilterCancelled | app/cancelados/page.tsx:250-290 | `remessasFiltradas`: the rows that pass carrier, text and period, in order |
| Cancellations.FilterCancelledSpec | app/cancelados/page.tsx:250-290 | the filtered list is a subsequence holding exactly the rows that pass carrier, text and period |
| Cancellations.PeriodIsClosedInterval | app/cancelados/page.tsx:270-288 | with both bounds set a row passes iff it has a cancellation instant within both bounds inclusive |
| Cancellations.TextSearchIgnoresSurroundingSpace | app/cancelados/page.tsx:261-268 | searching a query with surrounding spaces is searching the trimmed query |
| Cancellations.Last7Days | app/cancelados/page.tsx:295-305 | `totalUltimos7Dias`: the rows cancelled between a week ago and now, both included; at most the list's length |
| Cancellations.Last7DaysIsPeriodFilter | app/cancelados/page.tsx:295-305 | the seven-day counter equals the size of the period filter from a week ago to now |
| Cancellations.Restore | app/cancelados/page.tsx:196-234 | on success the status returns to "aguardando_agendamento" and at most one "restaurada" entry is logged; a failed update logs nothing |
| Cancellations.RestoreLeavesList | app/cancelados/page.tsx:209-226 | a restored shipment is no longer cancelled, and its restore entry is not a cancellation |
| Calendar.Shifted | app/calendario/page.tsx:194-208 | the new month lies in 0..11 |
| Calendar.ShiftedIsOneMonth | app/calendario/page.tsx:194-208 | a shift by ±1 moves exactly one month, across the year boundary when needed |
| Calendar.ShiftedForthAndBack | app/calendario/page.tsx:194-208 | going forward then back returns to the same month and year |
| Calendar.MonthCursor.Shift | app/calendario/page.tsx:194-208 | the displayed month and year become the shifted ones and stay valid |
| Calendar.DaysInMonth | app/calendario/page.tsx:188-192 | every month has 28 to 31 days |
| Calendar.DaysInYear | app/calendario/page.tsx:188-192 | for a year outside 0..99 (which `new Date` maps to 1900..1999), February has 29 days exactly in leap years, and the months sum to 366 in leap years and 365 otherwise |
| Calendar.DayListIsOneToN | app/calendario/page.tsx:220-224 | the day list holds exactly 1..n |
| Calendar.DaysShown | app/calendario/page.tsx:220-224 | the day cells of the month on display: one per day of `DaysInMonth` for that month and year |
| Calendar.DaysShownSpec | app/calendario/page.tsx:188-192 | the grid shows day d iff d is a day of that month, and its last cell is the month's last day |
| Calendar.DaysShownFebruary | app/calendario/page.tsx:188-192 | for a year outside 0..99, February's grid has a 29th cell iff the year is a leap year |
| Calendar.AllEvents | app/calendario/page.tsx:96-134 | each shipment's loading event then delivery event, for the dates that are truthy, shipments in list order |
| Calendar.GenerateEvents | app/calendario/page.tsx:96-134 | the loop produces each shipment's events in list order |
| Calendar.EventsMembers | app/calendario/page.tsx:99-131 | an event is produced iff a listed shipment has that date set and the event is built from it |
| Calendar.EventFlags | app/calendario/page.tsx:100-130 | the event id is the shipment id with the kind's suffix; "cancelado" iff cancelled; "finalizado" iff delivered or loaded |
| Calendar.EventCount | app/calendario/page.tsx:99-131 | there is one event per set loading date and one per set delivery date |
| Calendar.EventIdsUnique | app/calendario/page.tsx:103-125 | with unique shipment ids the event ids are unique |
| Calendar.EventsOn | app/calendario/page.tsx:295-302 | `eventosDoDia`: the events whose date's ten-character prefix is the day's key |
| Calendar.EventsOnSpec | app/calendario/page.tsx:295-302 | a day shows, in order, exactly the events whose date prefix is that day |
| Calendar.CountToday | app/calendario/page.tsx:142-148 | counts the shipments loading and delivering today |
| Calendar.Alerts | app/calendario/page.tsx:139-184 | the alerts of `gerarAlertasIA`: the info alerts, then one late alert per calendar-late shipment, then one success alert per delivered or loaded one |
| Calendar.GenerateAlerts | app/calendario/page.tsx:139-184 | the loops produce the info, late and success alerts in that order |
| Calendar.CalendarLate | app/calendario/page.tsx:150-155 | the calendar's lateness: a truthy delivery date whose day key orders before today's, on a shipment not delivered; cancelled and rebilled shipments count |
| Calendar.LateAlertsSpec | app/calendario/page.tsx:150-173 | one late alert per calendar-late shipment |
| Calendar.SuccessAlertsSpec | app/calendario/page.tsx:175-181 | one success alert per delivered or loaded shipment |
| Calendar.LateAlertsMembers | app/calendario/page.tsx:169-173 | an alert is a late alert iff it is the "-atraso" alert, with the "está atrasada" message, of a calendar-late shipment of the list |
| Calendar.SuccessAlertsMembers | app/calendario/page.tsx:175-181 | an alert is a success alert iff it is the "-status" alert, naming the upper-cased status, of a delivered or loaded shipment of the list |
| Calendar.InfoAlertsSpec | app/calendario/page.tsx:157-167 | one info alert for each of the two today counters that is non-zero, and only info alerts |
| Calendar.AlertsInOrder | app/calendario/page.tsx:139-184 | info alerts precede late alerts, which precede success alerts |
| Calendar.CalendarLateIsLate | app/calendario/page.tsx:150-155 | where the day key agrees with the instant and today began by now, a calendar-late shipment neither cancelled nor rebilled is late on the tracking page and overdue on the pendencies page |
| Calendar.CancelledLateOnlyOnCalendar | app/calendario/page.tsx:150-155 | a cancelled shipment with a past date is late only on the calendar |
| Calendar.DayKeyAgrees | app/calendario/page.tsx:150-155 | a stored date's ten-character day orders before today's key exactly when its instant is before the start of today |
| Calendar.IsLateIsCalendarLate | app/calendario/page.tsx:150-155 | a shipment late on the tracking page, whose day key agrees with its instant, is calendar-late iff it was due before today began |
| Calendar.DueEarlierTodayLateOnlyElsewhere | app/acompanhamento/page.tsx:92-107 | a delivery due earlier today, before now, is late on the tracking and pendencies pages and not on the calendar |
| Calendar.DueEarlierTodayExample | app/calendario/page.tsx:150-155 | a concrete such shipment: due 08:00 on the day shown, seen at 09:00 |

## Left out

- The data client's calls, server-side ordering (`.order(...)`) and reloads are left out. The tables are sequences held by `Store.Store`. Each page's list is the sequence it is given, in the order it is given. In particular the cancellation fold reads the history in whatever order it is passed; the page fetches it newest first.
- React state, rendering, styling helpers, status label texts, and the `confirm`/`alert` prompts are left out. Only the confirmed path of each action is modelled.
- The calendar's browser notifications are left out: a side-effecting browser API.
- Date parsing and formatting are left out. A date column holds its text and the instant it parses to, supplied by the caller. `toLocaleString` labels are a string parameter. History ids and the data store's own timestamps are left out.
- The calendar's day key comes from `toISOString()` of a local midnight, which depends on the time zone. Each day's key is a parameter of `Calendar.EventsOn`. The weekday offset of the first day of the month is not modelled.
- The seven-day window computes "a week ago" by calendar arithmetic across daylight-saving changes. `Cancellations.Last7Days` takes both bounds as instants.
- A shipment's creation instant is an integer. An unparsable creation date, which makes the source comparator return NaN, is not modelled.
- Views.CarrierOptions: orders by code-point lexicographic order, not by `localeCompare`, whose collation is locale data outside the program.
- Text.StrLess: compares Unicode code points, where JavaScript's `<` compares UTF-16 code units. The two orders differ only when a character above U+FFFF meets one in U+E000–U+FFFF at the same position. Date keys are ASCII, so the calendar's comparisons are unaffected.
- Text.Lower: lower-cases ASCII and Latin-1 capitals only; the full Unicode case mapping of `toLowerCase` is not modelled.
- The pages' "todas" carrier sentinel collides with a carrier literally named "todas". The model keeps that behaviour without a lemma about it.
- The acompanhamento page fetches the whole history table, ordered by `criado_em`; the cancelados page restricts its fetch to the listed shipments. The model takes the history it is given as a sequence, in fetch order.
- Unknown status strings are kept as `Other` and match no pendency or group. Lower-casing or trimming of stored statuses is not modelled, except where the cancellations page does it.
- Concurrent edits by several operators are left out.
- Whether the database cascades a shipment delete to its history is not visible in the pages. The model leaves it open as the store's `cascades` flag, and states the deletes for both settings.
