/** The records the dashboard reads and writes: a shipment ("remessa") row
    and an entry of its audit trail ("remessa_historico"), with the
    status strings the pages compare against. */
module Shipments {
  import opened Text

  datatype Option<T> = None | Some(value: T)

  /** The status column. The pages compare it against eight literal
      strings; any other string is kept as it is. */
  datatype Status =
    | AwaitingScheduling   // "aguardando_agendamento"
    | Scheduled            // "agendada"
    | AwaitingLoading      // "aguardando_carregamento"
    | Loaded               // "carregada"
    | InTransit            // "em_rota"
    | Delivered            // "entregue"
    | Cancelled            // "cancelada"
    | Rebilled             // "refaturada"
    | Other(raw: string)

  function StatusText(s: Status): string {
    match s
    case AwaitingScheduling => "aguardando_agendamento"
    case Scheduled => "agendada"
    case AwaitingLoading => "aguardando_carregamento"
    case Loaded => "carregada"
    case InTransit => "em_rota"
    case Delivered => "entregue"
    case Cancelled => "cancelada"
    case Rebilled => "refaturada"
    case Other(raw) => raw
  }

  /** Reads a status column value; `ParseStatus(t)` always writes back as `t`. */
  function ParseStatus(t: string): (s: Status)
    ensures StatusText(s) == t
    ensures Canonical(s)
  {
    if t == "aguardando_agendamento" then AwaitingScheduling
    else if t == "agendada" then Scheduled
    else if t == "aguardando_carregamento" then AwaitingLoading
    else if t == "carregada" then Loaded
    else if t == "em_rota" then InTransit
    else if t == "entregue" then Delivered
    else if t == "cancelada" then Cancelled
    else if t == "refaturada" then Rebilled
    else Other(t)
  }

  /** A status value that some column string reads as: `Other` never wraps
      one of the eight known strings. */
  predicate Canonical(s: Status) {
    s.Other? ==> s.raw !in KnownStatusTexts()
  }

  function KnownStatusTexts(): set<string> {
    {"aguardando_agendamento", "agendada", "aguardando_carregamento", "carregada",
     "em_rota", "entregue", "cancelada", "refaturada"}
  }

  /** Writing a status and reading it back gives the same status, so
      comparing status values is comparing the column strings. */
  lemma StatusRoundTrip(s: Status)
    requires Canonical(s)
    ensures ParseStatus(StatusText(s)) == s
  {
  }

  lemma StatusTextInjective(s: Status, t: Status)
    requires Canonical(s) && Canonical(t)
    ensures StatusText(s) == StatusText(t) <==> s == t
  {
    StatusRoundTrip(s);
    StatusRoundTrip(t);
  }

  /** A date column as stored: its text and, when `new Date(text)` can parse
      it, the instant it denotes (milliseconds). */
  datatype Stamp = Stamp(text: string, instant: Option<int>)

  /** JavaScript truthiness of a nullable date column: `null` and `""` are
      both absent. */
  predicate Present(d: Option<Stamp>) {
    d.Some? && d.value.text != ""
  }

  /** `new Date(d) < now` for a present column: false when the text does not
      parse, since every comparison with NaN is false. */
  predicate Before(d: Option<Stamp>, now: int) {
    Present(d) && d.value.instant.Some? && d.value.instant.value < now
  }

  datatype LoadingType = Palletized | Bulk   // "PALETIZADA" | "BATIDA"

  function LoadingTypeText(t: LoadingType): string {
    match t
    case Palletized => "PALETIZADA"
    case Bulk => "BATIDA"
  }

  /** A row of the shipments table. */
  datatype Shipment = Shipment(
    id: string,
    number: string,                  // numero_remessa
    note: string,                    // numero_nota
    client: string,                  // cliente_nome
    status: Status,
    createdAt: int,                  // data_criacao
    carrier: Option<string>,         // transportadora (a name, not a key)
    labelCreated: Option<bool>,      // etiqueta_criada
    labelCreatedAt: Option<int>,
    labelReceived: Option<bool>,     // etiqueta_recebida
    labelReceivedAt: Option<int>,
    loadingType: Option<LoadingType>,
    deliveryDate: Option<Stamp>,     // data_entrega
    loadingDate: Option<Stamp>,      // data_carregamento
    loadedAt: Option<int>,           // data_carregada_em
    inTransitAt: Option<int>,        // data_em_rota_em
    notes: Option<string>            // observacoes
  )

  /** A row of the history table. */
  datatype HistoryEntry = HistoryEntry(
    shipmentId: string,
    status: string,
    description: string,
    user: Option<string>,
    createdAt: int
  )

  /** The fixed actor written on every history entry. */
  const Actor := "karimex"

  const NoCarrier := "Sem transportadora"

  /** The carrier name a list shows and filters on: the trimmed name, or
      "Sem transportadora" when the column is null or blank. */
  function CarrierKey(carrier: Option<string>): (k: string)
    ensures k != ""
    ensures k == NoCarrier || (carrier.Some? && k == Trim(carrier.value))
  {
    if carrier.Some? && Trim(carrier.value) != "" then Trim(carrier.value) else NoCarrier
  }

  /** The tracking page's spelling of the same key,
      `transportadora?.trim() || "Sem transportadora"`. */
  function CarrierKeyOr(carrier: Option<string>): (k: string)
  {
    if carrier.None? then NoCarrier
    else var t := Trim(carrier.value); if t != "" then t else NoCarrier
  }

  /** The two spellings agree on every column value. */
  lemma CarrierKeysAgree(carrier: Option<string>)
    ensures CarrierKeyOr(carrier) == CarrierKey(carrier)
  {
  }

  /** The text the shipment and pendency searches look in. */
  function SearchText(s: Shipment): string {
    s.number + " " + s.note + " " + s.client
  }

  /** The search of the pendency and tracking lists: active when the query
      is not blank, then a substring test of the lower-cased query (not
      trimmed) in the lower-cased "remessa nota cliente" text. */
  predicate SearchMatches(s: Shipment, query: string) {
    Trim(query) == "" || Contains(Lower(SearchText(s)), Lower(query))
  }

  /** Ids are unique in the table. */
  predicate UniqueIds(ss: seq<Shipment>) {
    forall i, j :: 0 <= i < j < |ss| ==> ss[i].id != ss[j].id
  }

  predicate IdInUse(ss: seq<Shipment>, id: string) {
    exists i :: 0 <= i < |ss| && ss[i].id == id
  }

  /** `a` is `b` with some elements left out, order kept. */
  predicate Subseq<T(==)>(a: seq<T>, b: seq<T>) {
    a == [] || (b != [] && ((a[0] == b[0] && Subseq(a[1..], b[1..])) || Subseq(a, b[1..])))
  }

  lemma {:induction false} SubseqMembers<T>(a: seq<T>, b: seq<T>)
    requires Subseq(a, b)
    ensures forall x :: x in a ==> x in b
    ensures |a| <= |b|
  {
    if a != [] {
      assert b == [b[0]] + b[1..];
      if a[0] == b[0] && Subseq(a[1..], b[1..]) {
        SubseqMembers(a[1..], b[1..]);
        assert a == [a[0]] + a[1..];
      } else {
        SubseqMembers(a, b[1..]);
      }
    }
  }
}
