/** Derived lists the read-only pages share: the history grouped by
    shipment and the carrier names offered by the carrier filter. */
module Views {
  import opened Text
  import opened Shipments
  import opened Store

  /** Appending an entry extends the history of its own shipment only. */
  lemma {:induction false} EntriesOfSnoc(hs: seq<HistoryEntry>, h: HistoryEntry, id: string)
    ensures EntriesOf(hs + [h], id) == EntriesOf(hs, id) + (if h.shipmentId == id then [h] else [])
  {
    if hs != [] {
      assert (hs + [h])[1..] == hs[1..] + [h];
      EntriesOfSnoc(hs[1..], h, id);
    } else {
      assert ([h])[1..] == [];
    }
  }

  /** The history of a shipment is the entries of the table with its id, in
      table order. */
  lemma {:induction false} EntriesOfSpec(hs: seq<HistoryEntry>, id: string)
    ensures forall h :: h in EntriesOf(hs, id) <==> h in hs && h.shipmentId == id
    ensures Subseq(EntriesOf(hs, id), hs)
    ensures EntriesOf(hs, id) == [] <==> forall k :: 0 <= k < |hs| ==> hs[k].shipmentId != id
  {
    if hs != [] {
      EntriesOfSpec(hs[1..], id);
      assert hs == [hs[0]] + hs[1..];
      var rest := EntriesOf(hs[1..], id);
      if hs[0].shipmentId == id {
        assert ([hs[0]] + rest)[1..] == rest;
      } else {
        forall k | 0 < k < |hs| ensures hs[k] == hs[1..][k - 1] {}
      }
    }
  }

  /** `historicoPorRemessa`: one pass over the history, appending each entry
      to the list of its shipment. Every shipment with history is a key and
      maps to exactly its entries in table order. */
  method GroupHistory(hs: seq<HistoryEntry>) returns (m: map<string, seq<HistoryEntry>>)
    ensures forall id :: id in m <==> EntriesOf(hs, id) != []
    ensures forall id :: id in m ==> m[id] == EntriesOf(hs, id)
  {
    m := map[];
    var i := 0;
    while i < |hs|
      invariant 0 <= i <= |hs|
      invariant forall id :: id in m <==> EntriesOf(hs[..i], id) != []
      invariant forall id :: id in m ==> m[id] == EntriesOf(hs[..i], id)
    {
      var h := hs[i];
      assert hs[..i + 1] == hs[..i] + [h];
      forall id ensures EntriesOf(hs[..i + 1], id) == EntriesOf(hs[..i], id) + (if h.shipmentId == id then [h] else []) {
        EntriesOfSnoc(hs[..i], h, id);
      }
      var arr := if h.shipmentId in m then m[h.shipmentId] else [];
      m := m[h.shipmentId := arr + [h]];
      i := i + 1;
    }
    assert hs[..i] == hs;
  }

  /** `historicoPorRemessa.get(id) ?? []`. */
  function HistoryOf(m: map<string, seq<HistoryEntry>>, id: string): seq<HistoryEntry> {
    if id in m then m[id] else []
  }

  /** The drawer's history, read through the grouped map, is the shipment's
      history in the table. */
  lemma HistoryOfGrouped(hs: seq<HistoryEntry>, m: map<string, seq<HistoryEntry>>, id: string)
    requires forall k :: k in m <==> EntriesOf(hs, k) != []
    requires forall k :: k in m ==> m[k] == EntriesOf(hs, k)
    ensures HistoryOf(m, id) == EntriesOf(hs, id)
  {
  }

  /** The last two entries, `arr.slice(-2)`. */
  function LastTwo(hs: seq<HistoryEntry>): (r: seq<HistoryEntry>)
    ensures |r| == if |hs| < 2 then |hs| else 2
    ensures hs == hs[..|hs| - |r|] + r
  {
    if |hs| < 2 then hs else hs[|hs| - 2..]
  }

  // ------------------------------------------------------------------
  // Carrier filter options
  // ------------------------------------------------------------------

  predicate StrictlySorted(r: seq<string>) {
    forall i, j :: 0 <= i < j < |r| ==> StrLess(r[i], r[j])
  }

  /** Adds `k` to an ascending list without duplicates, keeping it so. */
  function InsertSorted(r: seq<string>, k: string): (r': seq<string>)
    requires StrictlySorted(r)
    ensures StrictlySorted(r')
    ensures forall x :: x in r' <==> x in r || x == k
  {
    if r == [] then [k]
    else if k == r[0] then r
    else if StrLess(k, r[0]) then
      assert forall j :: 0 <= j < |r| ==> StrLess(k, r[j]) by {
        forall j | 0 <= j < |r| ensures StrLess(k, r[j]) {
          if j > 0 { StrLessTransitive(k, r[0], r[j]); }
        }
      }
      [k] + r
    else
      StrLessTotal(k, r[0]);
      var tail := InsertSorted(r[1..], k);
      assert forall x :: x in r <==> x == r[0] || x in r[1..] by {
        assert r == [r[0]] + r[1..];
      }
      assert forall j :: 0 <= j < |tail| ==> StrLess(r[0], tail[j]) by {
        forall j | 0 <= j < |tail| ensures StrLess(r[0], tail[j]) {
          assert tail[j] in r[1..] || tail[j] == k;
          if tail[j] in r[1..] {
            var q :| 0 <= q < |r[1..]| && r[1..][q] == tail[j];
            assert r[q + 1] == tail[j];
          }
        }
      }
      [r[0]] + tail
  }

  /** The carrier keys of `ss`. */
  ghost predicate IsCarrierOf(ss: seq<Shipment>, x: string) {
    exists i :: 0 <= i < |ss| && CarrierKey(ss[i].carrier) == x
  }

  /** `transportadorasDisponiveis`: each shipment's carrier key, without
      repetition, in ascending order. */
  method CarrierOptions(ss: seq<Shipment>) returns (r: seq<string>)
    ensures StrictlySorted(r)
    ensures forall x :: x in r <==> IsCarrierOf(ss, x)
  {
    r := [];
    var i := 0;
    while i < |ss|
      invariant 0 <= i <= |ss|
      invariant StrictlySorted(r)
      invariant forall x :: x in r <==> IsCarrierOf(ss[..i], x)
    {
      var key := CarrierKey(ss[i].carrier);
      r := InsertSorted(r, key);
      forall x ensures IsCarrierOf(ss[..i + 1], x) <==> IsCarrierOf(ss[..i], x) || x == key {
        if IsCarrierOf(ss[..i + 1], x) {
          var k :| 0 <= k < i + 1 && CarrierKey(ss[..i + 1][k].carrier) == x;
          if k < i { assert ss[..i][k] == ss[..i + 1][k]; }
        }
        if IsCarrierOf(ss[..i], x) {
          var k :| 0 <= k < i && CarrierKey(ss[..i][k].carrier) == x;
          assert ss[..i + 1][k] == ss[..i][k];
        }
        if x == key { assert ss[..i + 1][i] == ss[i]; }
      }
      i := i + 1;
    }
    assert ss[..i] == ss;
  }

  /** The carrier filter: the sentinel "todas" keeps every row, any other
      value keeps the rows whose carrier key equals it. */
  predicate CarrierFilterKeeps(filter: string, s: Shipment) {
    filter == "todas" || CarrierKey(s.carrier) == filter
  }

  /** Every option the filter offers keeps at least one row. */
  lemma OptionsSelectSomething(ss: seq<Shipment>, x: string)
    requires IsCarrierOf(ss, x)
    ensures exists i :: 0 <= i < |ss| && CarrierFilterKeeps(x, ss[i])
  {
    var i :| 0 <= i < |ss| && CarrierKey(ss[i].carrier) == x;
    assert CarrierFilterKeeps(x, ss[i]);
  }
}
