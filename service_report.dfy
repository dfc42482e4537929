/** The revenue-by-service report: payments are grouped by their service
    description, each group's amounts are summed, and one pie slice is drawn
    per group, coloured from a six-colour palette in turn.

    Amounts are integers (cents); the keys keep the order in which each
    description first appears. */
module ServiceReport {
  import opened Base

  /** One payment row: `service_description` and `amount_paid`. */
  datatype Payment = Payment(serviceDescription: Option<string>, amountPaid: int)

  /** One slice: `{ name, value }` and the fill colour of its `Cell`. */
  datatype ChartEntry = ChartEntry(name: string, value: int, fill: string)

  datatype ReportView =
    | NoData                          // "No hay datos disponibles."
    | Chart(entries: seq<ChartEntry>)

  const Colors: seq<string> := ["#0088FE", "#00C49F", "#FFBB28", "#FF8042", "#AF19FF", "#FF195E"]

  const Undescribed: string := "Sin descripción"

  /** `payment.service_description || 'Sin descripción'`. */
  function ServiceKey(p: Payment): (k: string)
    ensures k != ""
    ensures k == Undescribed <==> p.serviceDescription.None? || p.serviceDescription.value in {"", Undescribed}
  {
    if p.serviceDescription.None? || p.serviceDescription.value == "" then Undescribed else p.serviceDescription.value
  }

  /** The colour of slice `index`: the palette, over and over. */
  function SliceColor(index: nat): (c: string)
    ensures c in Colors
    ensures index >= 6 ==> c == SliceColor(index - 6)
  {
    Colors[index % 6]
  }

  // ---------------------------------------------------------------------------
  // The reference definitions, over a prefix of the payments.

  function Last(data: seq<Payment>): Payment
    requires data != []
  {
    data[|data| - 1]
  }

  function Init(data: seq<Payment>): seq<Payment>
    requires data != []
  {
    data[..|data| - 1]
  }

  /** The sum of the amounts of the payments filed under `key`. */
  function Total(data: seq<Payment>, key: string): int {
    if data == [] then 0
    else Total(Init(data), key) + (if ServiceKey(Last(data)) == key then Last(data).amountPaid else 0)
  }

  /** The sum of all amounts. */
  function Sum(data: seq<Payment>): int {
    if data == [] then 0 else Sum(Init(data)) + Last(data).amountPaid
  }

  /** The keys, each once, in the order of their first payment. */
  function Keys(data: seq<Payment>): (ks: seq<string>)
    ensures |ks| <= |data|
  {
    if data == [] then []
    else if ServiceKey(Last(data)) in Keys(Init(data)) then Keys(Init(data))
    else Keys(Init(data)) + [ServiceKey(Last(data))]
  }

  predicate Distinct(ks: seq<string>) {
    forall i, j :: 0 <= i < j < |ks| ==> ks[i] != ks[j]
  }

  /** The keys are exactly the payments' keys, each listed once. */
  lemma {:induction false} KeysAreTheServices(data: seq<Payment>)
    ensures Distinct(Keys(data))
    ensures forall k :: k in Keys(data) <==> exists p :: p in data && ServiceKey(p) == k
  {
    if data != [] {
      KeysAreTheServices(Init(data));
      assert data == Init(data) + [Last(data)];
      forall k | (exists p :: p in data && ServiceKey(p) == k) ensures k in Keys(data) {
        var p :| p in data && ServiceKey(p) == k;
        if p != Last(data) {
          assert p in Init(data);
        }
      }
    }
  }

  /** A key no payment carries sums to nothing. */
  lemma {:induction false} TotalOfAbsentKey(data: seq<Payment>, key: string)
    requires key !in Keys(data)
    ensures Total(data, key) == 0
  {
    if data != [] {
      TotalOfAbsentKey(Init(data), key);
    }
  }

  /** The sum of the totals of `ks`. */
  function SumOver(ks: seq<string>, data: seq<Payment>): int {
    if ks == [] then 0 else SumOver(ks[..|ks| - 1], data) + Total(data, ks[|ks| - 1])
  }

  /** One more payment adds its amount to the sum over the keys exactly when its
      key is one of them (and they are distinct). */
  lemma {:induction false} SumOverOneMore(ks: seq<string>, data: seq<Payment>, p: Payment)
    requires Distinct(ks)
    ensures SumOver(ks, data + [p]) == SumOver(ks, data) + (if ServiceKey(p) in ks then p.amountPaid else 0)
  {
    assert Init(data + [p]) == data;
    if ks != [] {
      var front := ks[..|ks| - 1];
      SumOverOneMore(front, data, p);
      assert ServiceKey(p) in ks <==> ServiceKey(p) in front || ServiceKey(p) == ks[|ks| - 1];
      if ServiceKey(p) == ks[|ks| - 1] {
        assert ServiceKey(p) !in front;
      }
    }
  }

  /** Grouping loses nothing: the totals of all keys add up to the sum of all
      amounts. */
  lemma {:induction false} TotalsAddUp(data: seq<Payment>)
    ensures SumOver(Keys(data), data) == Sum(data)
  {
    if data != [] {
      var init, p := Init(data), Last(data);
      assert data == init + [p];
      TotalsAddUp(init);
      KeysAreTheServices(init);
      SumOverOneMore(Keys(init), init, p);
      if ServiceKey(p) !in Keys(init) {
        var ks := Keys(init) + [ServiceKey(p)];
        assert ks[..|ks| - 1] == Keys(init);
        TotalOfAbsentKey(init, ServiceKey(p));
      }
    }
  }

  // ---------------------------------------------------------------------------
  // The `reduce` and the `map`.

  /** The `reduce`: one pass that adds each amount to its key's running total,
      starting a key at 0 the first time it is seen. */
  method Aggregate(data: seq<Payment>) returns (totals: map<string, int>, keys: seq<string>)
    ensures keys == Keys(data)
    ensures totals.Keys == set k | k in keys
    ensures forall k :: k in totals ==> totals[k] == Total(data, k)
  {
    totals := map[];
    keys := [];
    var i := 0;
    while i < |data|
      invariant 0 <= i <= |data|
      invariant keys == Keys(data[..i])
      invariant totals.Keys == set k | k in keys
      invariant forall k :: k in totals ==> totals[k] == Total(data[..i], k)
    {
      var p := data[i];
      var service := ServiceKey(p);
      assert Init(data[..i + 1]) == data[..i] && Last(data[..i + 1]) == p;
      if service !in totals {
        TotalOfAbsentKey(data[..i], service);
        totals := totals[service := 0];
        keys := keys + [service];
      }
      totals := totals[service := totals[service] + p.amountPaid];
      i := i + 1;
    }
    assert data[..i] == data;
  }

  /** `chartData`, with each slice's colour. */
  function ChartData(keys: seq<string>, totals: map<string, int>): (entries: seq<ChartEntry>)
    requires forall k :: k in keys ==> k in totals
    ensures |entries| == |keys|
  {
    seq(|keys|, i requires 0 <= i < |keys| => ChartEntry(keys[i], totals[keys[i]], SliceColor(i)))
  }

  /** The sum of the slices' values. */
  function ChartTotal(entries: seq<ChartEntry>): int {
    if entries == [] then 0 else ChartTotal(entries[..|entries| - 1]) + entries[|entries| - 1].value
  }

  lemma {:induction false} ChartTotalIsSumOver(entries: seq<ChartEntry>, ks: seq<string>, data: seq<Payment>)
    requires |entries| == |ks|
    requires forall i :: 0 <= i < |ks| ==> entries[i].value == Total(data, ks[i])
    ensures ChartTotal(entries) == SumOver(ks, data)
  {
    if ks != [] {
      ChartTotalIsSumOver(entries[..|entries| - 1], ks[..|ks| - 1], data);
    }
  }

  /** The component: the "no data" card for no payments, otherwise one slice per
      service, in order of first appearance, each worth its service's total and
      coloured from the palette by position; the slices add up to all amounts. */
  method Report(data: seq<Payment>) returns (view: ReportView)
    ensures data == [] <==> view == NoData
    ensures view.Chart? ==>
              |view.entries| == |Keys(data)| &&
              (forall i :: 0 <= i < |view.entries| ==>
                 view.entries[i] == ChartEntry(Keys(data)[i], Total(data, Keys(data)[i]), SliceColor(i))) &&
              ChartTotal(view.entries) == Sum(data)
  {
    if |data| == 0 {
      return NoData;
    }
    var totals, keys := Aggregate(data);
    var entries := ChartData(keys, totals);
    TotalsAddUp(data);
    ChartTotalIsSumOver(entries, keys, data);
    view := Chart(entries);
  }
}
