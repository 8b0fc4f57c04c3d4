/**
 What the rows of a macro sync say, row by row, and when the versioned insert appends one
 (cmd/us-market-macro-fmp-sync/main.go:823-868 and 1206-1339).
 */
module Observations {
  import opened Basics
  import opened Revisions

  // ---- Seconds and revisions ----

  /** Storing a time drops its fraction of a second. */
  lemma SecondsIs(t: int)
    ensures Seconds(t) <= t < Seconds(t) + 1_000_000_000 && Seconds(t) % 1_000_000_000 == 0
  {
    var q := t / SECOND;
    assert t == SECOND * q + t % SECOND;
    assert (SECOND * q) % SECOND == 0;
  }

  /** Rows are stored as they are, but for the fractions of their times. */
  lemma StoredIs(rows: seq<Row>, i: nat)
    requires i < |rows|
    ensures |Stored(rows)| == |rows|
    ensures var r, k := rows[i], rows[i].key;
      Stored(rows)[i] == Row(Key(k.dataset, k.factor, Seconds(k.event), Seconds(k.known)), r.value, r.revision)
  {
  }

  /** The row at `i` is the first one with the highest revision of its key. */
  predicate IsLatest(store: seq<Row>, k: Key, i: nat) {
    && i < |store| && store[i].key == k
    && forall j :: 0 <= j < |store| && store[j].key == k ==>
         store[j].revision < store[i].revision || (i <= j && store[j].revision == store[i].revision)
  }

  lemma {:induction false} LatestIs(store: seq<Row>, k: Key) returns (i: nat)
    ensures Latest(store, k).None? ==> forall j :: 0 <= j < |store| ==> store[j].key != k
    ensures Latest(store, k).Some? ==>
      IsLatest(store, k, i) && Latest(store, k) == Some(Existing(store[i].revision, store[i].value))
  {
    hide Keys;
    if store == [] {
      i := 0;
    } else {
      var front, last := store[..|store| - 1], store[|store| - 1];
      assert store == front + [last];
      i := LatestIs(front, k);
      if last.key == k && (Latest(front, k).None? || last.revision > Latest(front, k).value.revision) {
        i := |front|;
      }
    }
  }

  /** A row is appended, under the next revision, unless the latest value of its key is within 1e-9 of
      its own; one with a new key is appended as it is. */
  lemma AppendedIff(store: seq<Row>, row: Row)
    ensures var new_ := NewRow(store, row);
      if Latest(store, row.key).None? then new_ == [row]
      else
        var current := Latest(store, row.key).value;
        var gap := if current.value < row.value then row.value - current.value else current.value - row.value;
        if gap <= 0.000000001 then new_ == [] else new_ == [Row(row.key, row.value, current.revision + 1)]
  {
    hide Latest;
  }

  // ---- The rows ----

  /** The value of a month that a factor stands for; 0 for no observation. */
  function ValueOf(p: Point, factor: string, priceFactor: string): real {
    if factor == priceFactor then p.price
    else if factor == "earnings" then p.earnings
    else if factor == "CPI" then p.cpi
    else if factor == "rate_GS10" then p.rateGS10
    else if factor == "real_sp" then p.realSP
    else if factor == "real_earnings" then p.realEarnings
    else if factor == "pe10" then if p.pe10 > 0.0 then p.pe10 else 0.0
    else if factor == "excess_cape_yield" then p.excessYield
    else 0.0
  }

  /** The row is the observation of its factor in a month: dated by the anchor of the month, or else by
      the last second of the month and the moment it was known. */
  predicate Observes(r: Row, dataset: string, p: Point, anchors: map<int, Anchor>, priceFactor: string) {
    && r.revision == 0 && r.key.dataset == dataset
    && r.value == ValueOf(p, r.key.factor, priceFactor) && r.value != 0.0
    && r.key.event == (if p.month in anchors then anchors[p.month].lastTS else p.periodEnd - 1_000_000_000)
    && r.key.known == (if p.month in anchors then anchors[p.month].firstTS else p.knownAt)
  }

  predicate IsRowFor(r: Row, dataset: string, factor: string, value: real, a: Anchor) {
    value != 0.0 && r == Row(Key(dataset, factor, a.lastTS, a.firstTS), value, 0)
  }

  lemma RowForIs(r: Row, dataset: string, factor: string, value: real, a: Anchor)
    ensures r in RowFor(dataset, factor, value, a) <==> IsRowFor(r, dataset, factor, value, a)
  {
  }

  lemma InMonthRows(rows: seq<Row>, dataset: string, p: Point, a: Anchor, priceFactor: string, r: Row)
    ensures r in MonthRows(rows, dataset, p, a, priceFactor) <==>
      || r in rows
      || IsRowFor(r, dataset, priceFactor, p.price, a)
      || IsRowFor(r, dataset, "earnings", p.earnings, a)
      || IsRowFor(r, dataset, "CPI", p.cpi, a)
      || IsRowFor(r, dataset, "rate_GS10", p.rateGS10, a)
      || IsRowFor(r, dataset, "real_sp", p.realSP, a)
      || IsRowFor(r, dataset, "real_earnings", p.realEarnings, a)
      || IsRowFor(r, dataset, "pe10", if p.pe10 > 0.0 then p.pe10 else 0.0, a)
      || IsRowFor(r, dataset, "excess_cape_yield", p.excessYield, a)
  {
    RowForIs(r, dataset, priceFactor, p.price, a);
    RowForIs(r, dataset, "earnings", p.earnings, a);
    RowForIs(r, dataset, "CPI", p.cpi, a);
    RowForIs(r, dataset, "rate_GS10", p.rateGS10, a);
    RowForIs(r, dataset, "real_sp", p.realSP, a);
    RowForIs(r, dataset, "real_earnings", p.realEarnings, a);
    RowForIs(r, dataset, "pe10", Max(p.pe10, 0.0), a);
    RowForIs(r, dataset, "excess_cape_yield", p.excessYield, a);
    hide RowFor;
    hide IsRowFor;
  }

  /** The other factors of a month. */
  predicate Named(priceFactor: string) {
    priceFactor in ["earnings", "CPI", "rate_GS10", "real_sp", "real_earnings", "pe10", "excess_cape_yield"]
  }

  lemma ObservesIff(r: Row, dataset: string, p: Point, anchors: map<int, Anchor>, priceFactor: string)
    requires !Named(priceFactor)
    ensures var a := AnchorOf(p, anchors);
      Observes(r, dataset, p, anchors, priceFactor) <==>
        || IsRowFor(r, dataset, priceFactor, p.price, a)
        || IsRowFor(r, dataset, "earnings", p.earnings, a)
        || IsRowFor(r, dataset, "CPI", p.cpi, a)
        || IsRowFor(r, dataset, "rate_GS10", p.rateGS10, a)
        || IsRowFor(r, dataset, "real_sp", p.realSP, a)
        || IsRowFor(r, dataset, "real_earnings", p.realEarnings, a)
        || IsRowFor(r, dataset, "pe10", if p.pe10 > 0.0 then p.pe10 else 0.0, a)
        || IsRowFor(r, dataset, "excess_cape_yield", p.excessYield, a)
  {
    var k := r.key;
    assert r == Row(Key(k.dataset, k.factor, k.event, k.known), r.value, r.revision);
  }

  /** A sync hands in exactly the observations of its months: every factor's own value, where it is not
      zero, and no other row. */
  lemma {:induction false} RowsAre(dataset: string, points: seq<Point>, anchors: map<int, Anchor>,
                                   priceFactor: string, r: Row)
    requires !Named(priceFactor)
    ensures r in ObservationRows(dataset, points, anchors, priceFactor) <==>
      exists p :: p in points && Observes(r, dataset, p, anchors, priceFactor)
  {
    hide *;
    if points == [] {
      assert points == [];
      NoObservations(dataset, anchors, priceFactor);
    } else {
      var front, p := points[..|points| - 1], points[|points| - 1];
      assert points == front + [p];
      RowsAre(dataset, front, anchors, priceFactor, r);
      ObservationRowsStep(dataset, points, anchors, priceFactor);
      var before := ObservationRows(dataset, front, anchors, priceFactor);
      InMonthRows(before, dataset, p, AnchorOf(p, anchors), priceFactor, r);
      ObservesIff(r, dataset, p, anchors, priceFactor);
    }
  }

  lemma NoObservations(dataset: string, anchors: map<int, Anchor>, priceFactor: string)
    ensures ObservationRows(dataset, [], anchors, priceFactor) == []
  {
  }
}
