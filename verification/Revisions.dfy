/**
 The rows of the macro sync and their versioned insert
 (cmd/us-market-macro-fmp-sync/main.go:823-868, 1206-1339 and the
 table at schema/clickhouse/fundamentals.sql:175-193). Times are whole nanoseconds; the table
 keeps whole seconds.
 */
module Revisions {

  import opened Basics

  const SECOND := 1_000_000_000

  datatype Key = Key(dataset: string, factor: string, event: int, known: int)

  datatype Row = Row(key: Key, value: real, revision: nat)

  datatype Existing = Existing(revision: nat, value: real)

  /** What a DateTime column, or a time formatted to the second, keeps. */
  function Seconds(t: int): int { t - t % SECOND }

  function StoredKey(k: Key): Key { k.(event := Seconds(k.event), known := Seconds(k.known)) }

  predicate WholeSeconds(k: Key) { StoredKey(k) == k }

  function Stored(rows: seq<Row>): (r: seq<Row>)
    ensures |r| == |rows|
  {
    seq(|rows|, i requires 0 <= i < |rows| => rows[i].(key := StoredKey(rows[i].key)))
  }

  predicate AlmostEqual(a: real, b: real) {
    -0.000000001 <= a - b <= 0.000000001
  }

  function Keys(store: seq<Row>): set<Key> {
    set r | r in store :: r.key
  }

  /** The value at the highest revision of a key. */
  function Latest(store: seq<Row>, k: Key): (r: Option<Existing>)
    ensures r.Some? <==> k in Keys(store)
  {
    if store == [] then None
    else
      var front, last := Latest(store[..|store| - 1], k), store[|store| - 1];
      assert store == store[..|store| - 1] + [last];
      if last.key == k && (front.None? || last.revision > front.value.revision)
      then Some(Existing(last.revision, last.value))
      else front
  }

  /** What a sync appends for a row, given what the table held when it started. */
  function NewRow(store: seq<Row>, row: Row): seq<Row> {
    match Latest(store, row.key)
    case None => [row]
    case Some(current) => if AlmostEqual(current.value, row.value) then [] else [row.(revision := current.revision + 1)]
  }

  function NewRows(store: seq<Row>, rows: seq<Row>): seq<Row> {
    if rows == [] then [] else NewRows(store, rows[..|rows| - 1]) + NewRow(store, rows[|rows| - 1])
  }

  lemma NoRows(store: seq<Row>)
    ensures NewRows(store, []) == []
  {
  }

  lemma NewRowsStep(store: seq<Row>, rows: seq<Row>, i: nat)
    requires i < |rows|
    ensures NewRows(store, rows[..i + 1]) == NewRows(store, rows[..i]) + NewRow(store, rows[i])
  {
    assert rows[..i + 1][..i] == rows[..i];
  }

  lemma {:induction false} NewRowsPrefix(store: seq<Row>, rows: seq<Row>, i: nat)
    requires i <= |rows|
    ensures NewRows(store, rows[..i]) <= NewRows(store, rows)
  {
    if i == |rows| {
      assert rows[..i] == rows;
    } else {
      assert rows[..|rows| - 1][..i] == rows[..i];
      NewRowsPrefix(store, rows[..|rows| - 1], i);
    }
  }

  lemma StoredAppend(a: seq<Row>, b: seq<Row>)
    ensures Stored(a + b) == Stored(a) + Stored(b)
  {
  }

  // ---- The sync ----

  datatype Window = Window(from: int, to: int) {
    predicate Holds(k: Key) { from <= k.event && k.known <= to }
  }

  /** The table after the first `sent` of the new rows arrived. */
  function Synced(store: seq<Row>, rows: seq<Row>, sent: nat): seq<Row>
    requires sent <= |NewRows(store, rows)|
  {
    store + Stored(NewRows(store, rows)[..sent])
  }

  /** After `i` rows, `sent` new rows have arrived and the batch holds the rest. */
  predicate Batched(store: seq<Row>, rows: seq<Row>, i: nat, sent: nat, batch: seq<Row>) {
    && i <= |rows| && sent <= |NewRows(store, rows)|
    && NewRows(store, rows[..i]) == NewRows(store, rows)[..sent] + batch
  }

  lemma BatchedStart(store: seq<Row>, rows: seq<Row>)
    ensures Batched(store, rows, 0, 0, [])
    ensures Synced(store, rows, 0) == store
  {
    assert Stored([]) == [] && store + [] == store;
  }

  lemma BatchedStep(store: seq<Row>, rows: seq<Row>, i: nat, sent: nat, batch: seq<Row>)
    requires i < |rows| && Batched(store, rows, i, sent, batch)
    ensures Batched(store, rows, i + 1, sent, batch + NewRow(store, rows[i]))
  {
    NewRowsStep(store, rows, i);
  }

  /** Sending the batch moves it into the table. */
  lemma BatchedSend(store: seq<Row>, rows: seq<Row>, i: nat, sent: nat, batch: seq<Row>)
    requires Batched(store, rows, i, sent, batch)
    ensures sent + |batch| <= |NewRows(store, rows)| && Batched(store, rows, i, sent + |batch|, [])
    ensures Synced(store, rows, sent + |batch|) == Synced(store, rows, sent) + Stored(batch)
  {
    NewRowsPrefix(store, rows, i);
    var all := NewRows(store, rows);
    assert all[..sent + |batch|] == all[..sent] + batch;
    StoredAppend(all[..sent], batch);
    assert store + (Stored(all[..sent]) + Stored(batch)) == store + Stored(all[..sent]) + Stored(batch);
  }

  lemma BatchedEnd(store: seq<Row>, rows: seq<Row>, sent: nat)
    requires Batched(store, rows, |rows|, sent, [])
    ensures sent == |NewRows(store, rows)|
  {
    assert rows[..|rows|] == rows;
  }

  class Table {
    var stored: seq<Row>

    /** The grouped query for one dataset and one window of times. */
    function Select(dataset: string, from: int, to: int): map<Key, Existing>
      reads this
    {
      map k | k in Keys(stored) && k.dataset == dataset && from <= k.event && k.known <= to :: Latest(stored, k).value
    }

    /** One window per dataset, from the first event to the last knowledge of its rows. */
    static method WindowsOf(rows: seq<Row>) returns (byDataset: map<string, Window>)
      ensures forall r :: r in rows ==> r.key.dataset in byDataset && byDataset[r.key.dataset].Holds(r.key)
    {
      byDataset := map[];
      for i := 0 to |rows|
        invariant forall r :: r in rows[..i] ==> r.key.dataset in byDataset && byDataset[r.key.dataset].Holds(r.key)
      {
        var key := rows[i].key;
        assert rows[..i + 1] == rows[..i] + [rows[i]];
        if key.dataset !in byDataset {
          byDataset := byDataset[key.dataset := Window(key.event, key.known)];
        } else {
          var current := byDataset[key.dataset];
          if key.event < current.from {
            current := current.(from := key.event);
          }
          if key.known > current.to {
            current := current.(to := key.known);
          }
          byDataset := byDataset[key.dataset := current];
        }
      }
      assert rows[..|rows|] == rows;
    }

    /** The loaded windows hold the latest revision of every row's key, and nothing that is not one. */
    method LoadExisting(rows: seq<Row>, monthLater: int -> int) returns (out: map<Key, Existing>)
      requires forall t :: monthLater(t) >= t + SECOND
      ensures forall k :: k in out ==> Latest(stored, k) == Some(out[k])
      ensures forall r :: r in rows ==> (r.key in out <==> Latest(stored, r.key).Some?)
    {
      hide Latest;
      var byDataset := WindowsOf(rows);
      out := map[];
      var datasets := byDataset.Keys;
      while datasets != {}
        invariant datasets <= byDataset.Keys
        invariant forall k :: k in out ==> Latest(stored, k) == Some(out[k])
        invariant forall k :: k in Keys(stored) && k.dataset in byDataset.Keys - datasets ==>
                                byDataset[k.dataset].Holds(k) ==> k in out
      {
        var dataset :| dataset in datasets;
        datasets := datasets - {dataset};
        var w := byDataset[dataset];
        assert Seconds(w.from) <= w.from && w.to <= Seconds(monthLater(w.to));
        out := out + Select(dataset, Seconds(w.from), Seconds(monthLater(w.to)));
      }
    }

    /** Append what is new, one batch at a time; the `n`-th send succeeds when `sends(n)`. Whatever
        happens, the table has grown by the first so many of the new rows. */
    method Insert(rows: seq<Row>, batchSize: int, monthLater: int -> int, sends: nat -> bool)
      returns (ok: bool, ghost sent: nat)
      requires forall t :: monthLater(t) >= t + SECOND
      modifies this
      ensures sent <= |NewRows(old(stored), rows)| && (ok ==> sent == |NewRows(old(stored), rows)|)
      ensures stored == Synced(old(stored), rows, sent)
    {
      hide *;
      ghost var start := stored;
      BatchedStart(start, rows);
      ok, sent := true, 0;
      if |rows| == 0 {
        BatchedEnd(start, rows, 0);
        return;
      }
      var size := if batchSize <= 0 then |rows| else batchSize;
      var existing := LoadExisting(rows, monthLater);
      var batch: seq<Row>, calls: nat := [], 0;
      for i := 0 to |rows|
        invariant sent <= |NewRows(start, rows)| && Batched(start, rows, i, sent, batch)
        invariant stored == Synced(start, rows, sent)
      {
        var appended := Revised(start, existing, rows[i]);
        BatchedStep(start, rows, i, sent, batch);
        if |appended| == 0 {
          assert batch + appended == batch;
          continue;
        }
        batch := batch + appended;
        if |batch| >= size {
          if !sends(calls) {
            return false, sent;
          }
          stored := stored + Stored(batch);
          BatchedSend(start, rows, i + 1, sent, batch);
          batch, calls, sent := [], calls + 1, sent + |batch|;
        }
      }
      if |batch| > 0 {
        if !sends(calls) {
          return false, sent;
        }
        stored := stored + Stored(batch);
        BatchedSend(start, rows, |rows|, sent, batch);
        sent := sent + |batch|;
        batch := [];
      }
      BatchedEnd(start, rows, sent);
    }

    /** The row as it is appended, or nothing when its value is already the latest. */
    static method Revised(ghost store: seq<Row>, existing: map<Key, Existing>, input: Row) returns (appended: seq<Row>)
      requires forall k :: k in existing ==> Latest(store, k) == Some(existing[k])
      requires input.key in existing <==> Latest(store, input.key).Some?
      ensures appended == NewRow(store, input)
    {
      hide Latest;
      var row := input;
      if row.key in existing {
        var current := existing[row.key];
        if AlmostEqual(current.value, row.value) {
          return [];
        }
        row := row.(revision := current.revision + 1);
      }
      return [row];
    }
  }

  // ---- Laws ----

  predicate DistinctKeys(rows: seq<Row>) {
    forall i, j :: 0 <= i < j < |rows| ==> rows[i].key != rows[j].key
  }

  predicate Whole(rows: seq<Row>) {
    forall r :: r in rows ==> WholeSeconds(r.key)
  }

  lemma StoredIsWhole(rows: seq<Row>)
    ensures Whole(Stored(rows))
    ensures Whole(rows) ==> Stored(rows) == rows
  {
    forall r | r in Stored(rows)
      ensures WholeSeconds(r.key)
    {
      var i :| 0 <= i < |rows| && r == Stored(rows)[i];
      assert r.key == StoredKey(rows[i].key);
    }
    if Whole(rows) {
      forall i | 0 <= i < |rows|
        ensures Stored(rows)[i] == rows[i]
      {
        assert rows[i] in rows;
      }
    }
  }

  lemma {:induction false} NewRowsSplit(store: seq<Row>, a: seq<Row>, b: seq<Row>)
    ensures NewRows(store, a + b) == NewRows(store, a) + NewRows(store, b)
  {
    if b == [] {
      assert a + b == a;
    } else {
      assert (a + b)[..|a + b| - 1] == a + b[..|b| - 1];
      NewRowsSplit(store, a, b[..|b| - 1]);
    }
  }

  lemma {:induction false} KeysOfNewRows(store: seq<Row>, rows: seq<Row>)
    ensures Keys(NewRows(store, rows)) <= Keys(rows)
  {
    if rows == [] {
    } else {
      var front, last := rows[..|rows| - 1], rows[|rows| - 1];
      KeysOfNewRows(store, front);
      assert rows == front + [last];
      forall k | k in Keys(NewRows(store, rows))
        ensures k in Keys(rows)
      {
        var r :| r in NewRows(store, rows) && r.key == k;
        if r in NewRows(store, front) {
          assert k in Keys(NewRows(store, front));
        } else {
          assert last in rows && r.key == last.key;
        }
      }
    }
  }

  /** Where the new rows of row `i` sit, and that no other new row has its key. */
  lemma NewRowsAround(store: seq<Row>, rows: seq<Row>, i: nat) returns (before: seq<Row>, after: seq<Row>)
    requires DistinctKeys(rows) && i < |rows|
    ensures before == NewRows(store, rows[..i])
    ensures NewRows(store, rows) == before + NewRow(store, rows[i]) + after
    ensures rows[i].key !in Keys(before) && rows[i].key !in Keys(after)
  {
    before, after := NewRows(store, rows[..i]), NewRows(store, rows[i + 1..]);
    assert rows == rows[..i + 1] + rows[i + 1..];
    NewRowsSplit(store, rows[..i + 1], rows[i + 1..]);
    NewRowsStep(store, rows, i);
    KeysOfNewRows(store, rows[..i]);
    KeysOfNewRows(store, rows[i + 1..]);
  }

  lemma {:induction false} LatestElsewhere(store: seq<Row>, more: seq<Row>, k: Key)
    requires k !in Keys(more)
    ensures Latest(store + more, k) == Latest(store, k)
  {
    if more == [] {
      assert store + more == store;
    } else {
      var front := more[..|more| - 1];
      assert (store + more)[..|store + more| - 1] == store + front;
      assert more[|more| - 1] in more && forall r :: r in front ==> r in more;
      LatestElsewhere(store, front, k);
    }
  }

  lemma LatestStep(store: seq<Row>, x: Row)
    requires Latest(store, x.key).None? || x.revision > Latest(store, x.key).value.revision
    ensures Latest(store + [x], x.key) == Some(Existing(x.revision, x.value))
  {
    assert (store + [x])[..|store|] == store;
  }

  lemma LatestAppended(store: seq<Row>, before: seq<Row>, x: Row, after: seq<Row>)
    requires x.key !in Keys(before) && x.key !in Keys(after)
    requires Latest(store, x.key).None? || x.revision > Latest(store, x.key).value.revision
    ensures Latest(store + (before + [x] + after), x.key) == Some(Existing(x.revision, x.value))
  {
    hide Latest;
    hide Keys;
    LatestElsewhere(store, before, x.key);
    LatestStep(store + before, x);
    LatestElsewhere(store + before + [x], after, x.key);
    assert store + before + [x] + after == store + (before + [x] + after);
  }

  lemma KeysMonotone(some: seq<Row>, all: seq<Row>)
    requires some <= all
    ensures Keys(some) <= Keys(all)
  {
  }

  /** What is latest for a row's key after the first `n` new rows: the row itself if it was among
      them, and otherwise what was there. */
  lemma LatestAfter(store: seq<Row>, rows: seq<Row>, i: nat, n: nat)
    requires DistinctKeys(rows) && i < |rows| && n <= |NewRows(store, rows)|
    ensures var new_ := NewRow(store, rows[i]);
      Latest(store + NewRows(store, rows)[..n], rows[i].key) ==
      if new_ != [] && |NewRows(store, rows[..i])| < n then Some(Existing(new_[0].revision, rows[i].value))
      else Latest(store, rows[i].key)
  {
    hide *;
    var before, after := NewRowsAround(store, rows, i);
    var all, one := NewRows(store, rows), NewRow(store, rows[i]);
    NewRowFacts(store, rows[i]);
    if n <= |before| {
      assert all[..n] == before[..n];
      KeysMonotone(before[..n], before);
      LatestElsewhere(store, all[..n], rows[i].key);
    } else if one == [] {
      var rest := after[..n - |before|];
      assert all[..n] == before + rest;
      KeysMonotone(rest, after);
      KeysApart(before, rest);
      LatestElsewhere(store, all[..n], rows[i].key);
    } else {
      assert one == [one[0]];
      var rest := after[..n - |before| - 1];
      assert all[..n] == before + [one[0]] + rest;
      KeysMonotone(rest, after);
      LatestAppended(store, before, one[0], rest);
    }
  }

  lemma NewRowFacts(store: seq<Row>, row: Row)
    ensures var one := NewRow(store, row);
      && |one| <= 1
      && (|one| == 1 ==> one[0].key == row.key && one[0].value == row.value)
      && (|one| == 1 ==> Latest(store, row.key).None? || one[0].revision > Latest(store, row.key).value.revision)
  {
    hide Latest;
  }

  lemma KeysApart(a: seq<Row>, b: seq<Row>)
    ensures Keys(a + b) == Keys(a) + Keys(b)
  {
    forall k | k in Keys(a) + Keys(b)
      ensures k in Keys(a + b)
    {
      var r :| (r in a || r in b) && r.key == k;
      assert r in a + b;
    }
  }

  lemma LatestAfterAll(store: seq<Row>, rows: seq<Row>, i: nat)
    requires DistinctKeys(rows) && i < |rows|
    ensures var new_ := NewRow(store, rows[i]);
      Latest(store + NewRows(store, rows), rows[i].key) ==
      if new_ != [] then Some(Existing(new_[0].revision, rows[i].value)) else Latest(store, rows[i].key)
  {
    hide Latest;
    hide Keys;
    hide DistinctKeys;
    var all := NewRows(store, rows);
    var before, after := NewRowsAround(store, rows, i);
    hide NewRows;
    hide NewRow;
    assert all[..|all|] == all;
    LatestAfter(store, rows, i, |all|);
    if NewRow(store, rows[i]) != [] {
      assert |before| < |all|;
    }
  }

  /** After a whole sync, every row's key has a latest value within the tolerance of the row's,
      under a revision that rose by one, or not at all if the value was already there. */
  lemma SyncedValues(store: seq<Row>, rows: seq<Row>, i: nat)
    requires DistinctKeys(rows) && Whole(rows) && i < |rows|
    ensures var k, new_ := rows[i].key, NewRow(store, rows[i]);
      var was, now := Latest(store, k), Latest(Synced(store, rows, |NewRows(store, rows)|), k);
      && now.Some? && AlmostEqual(now.value.value, rows[i].value)
      && now.value.revision == (if was.None? then rows[i].revision else was.value.revision + |new_|)
  {
    SyncedAll(store, rows);
    LatestAfterAll(store, rows, i);
    hide Latest;
    hide NewRows;
  }

  lemma NewRowsAreWhole(store: seq<Row>, rows: seq<Row>)
    requires Whole(rows)
    ensures Whole(NewRows(store, rows))
  {
    KeysOfNewRows(store, rows);
    forall r | r in NewRows(store, rows)
      ensures WholeSeconds(r.key)
    {
      assert r.key in Keys(NewRows(store, rows));
    }
  }

  lemma SyncedWhole(store: seq<Row>, rows: seq<Row>, sent: nat)
    requires Whole(rows) && sent <= |NewRows(store, rows)|
    ensures Synced(store, rows, sent) == store + NewRows(store, rows)[..sent]
  {
    NewRowsAreWhole(store, rows);
    StoredIsWhole(NewRows(store, rows)[..sent]);
  }

  lemma SyncedAll(store: seq<Row>, rows: seq<Row>)
    requires Whole(rows)
    ensures Synced(store, rows, |NewRows(store, rows)|) == store + NewRows(store, rows)
  {
    var all := NewRows(store, rows);
    SyncedWhole(store, rows, |all|);
    assert all[..|all|] == all;
  }

  lemma NewRowByLatest(store: seq<Row>, after: seq<Row>, row: Row)
    ensures Latest(after, row.key) == Latest(store, row.key) ==> NewRow(after, row) == NewRow(store, row)
    ensures Latest(after, row.key).Some? && Latest(after, row.key).value.value == row.value ==> NewRow(after, row) == []
  {
    hide Latest;
  }

  lemma ResumeStep(store: seq<Row>, rows: seq<Row>, i: nat, n: nat)
    requires DistinctKeys(rows) && i < |rows| && n <= |NewRows(store, rows)|
    ensures var c := |NewRows(store, rows[..i])|;
      NewRow(store + NewRows(store, rows)[..n], rows[i]) == if c < n then [] else NewRow(store, rows[i])
  {
    hide *;
    LatestAfter(store, rows, i, n);
    NewRowByLatest(store, store + NewRows(store, rows)[..n], rows[i]);
  }

  lemma {:induction false} ResumeUpTo(store: seq<Row>, rows: seq<Row>, i: nat, n: nat)
    requires DistinctKeys(rows) && i <= |rows| && n <= |NewRows(store, rows)|
    ensures var new_ := NewRows(store, rows[..i]);
      NewRows(store + NewRows(store, rows)[..n], rows[..i]) == if |new_| <= n then [] else new_[n..]
  {
    hide *;
    var partial := store + NewRows(store, rows)[..n];
    if i == 0 {
      assert rows[..i] == [];
      NoRows(store);
      NoRows(partial);
    } else {
      ResumeUpTo(store, rows, i - 1, n);
      ResumeStep(store, rows, i - 1, n);
      NewRowsStep(store, rows, i - 1);
      NewRowsStep(partial, rows, i - 1);
      NewRowFacts(store, rows[i - 1]);
    }
  }

  /** A sync that stops after any number of arrived rows and is then run again appends exactly the
      rows that were missing: the table is that of one undisturbed sync. */
  lemma ResumeCompletes(store: seq<Row>, rows: seq<Row>, sent: nat)
    requires DistinctKeys(rows) && Whole(rows) && sent <= |NewRows(store, rows)|
    ensures var partial, all := Synced(store, rows, sent), NewRows(store, rows);
      && NewRows(partial, rows) == all[sent..]
      && Synced(partial, rows, |NewRows(partial, rows)|) == Synced(store, rows, |all|)
  {
    hide *;
    var all := NewRows(store, rows);
    SyncedWhole(store, rows, sent);
    ResumeUpTo(store, rows, |rows|, sent);
    assert rows[..|rows|] == rows;
    SyncedAll(store + all[..sent], rows);
    SyncedAll(store, rows);
    assert store + all[..sent] + all[sent..] == store + all;
  }

  lemma FractionsAreNew(store: seq<Row>, rows: seq<Row>, r: Row)
    requires Whole(store) && r in rows && !WholeSeconds(r.key)
    ensures NewRows(store, rows) != []
  {
    var i :| 0 <= i < |rows| && rows[i] == r;
    assert r.key !in Keys(store);
    assert rows == rows[..i + 1] + rows[i + 1..];
    NewRowsSplit(store, rows[..i + 1], rows[i + 1..]);
    NewRowsStep(store, rows, i);
  }

  /** Running a sync again appends nothing exactly when every row's times are whole seconds: a key
      with a fraction is looked up in full but stored without it. */
  lemma RerunAppendsNothingIff(store: seq<Row>, rows: seq<Row>)
    requires Whole(store) && DistinctKeys(rows)
    ensures NewRows(Synced(store, rows, |NewRows(store, rows)|), rows) == [] <==> Whole(rows)
  {
    var all := NewRows(store, rows);
    if Whole(rows) {
      ResumeCompletes(store, rows, |all|);
    } else {
      var r :| r in rows && !WholeSeconds(r.key);
      StoredIsWhole(all[..|all|]);
      FractionsAreNew(Synced(store, rows, |all|), rows, r);
    }
  }

  // ---- The rows of a sync ----

  /** One month of the index; times are nanoseconds, `month` the first moment of the month and
      `periodEnd` that of the next. */
  datatype Point = Point(
    month: int, periodEnd: int, knownAt: int, price: real, earnings: real, cpi: real, rateGS10: real,
    realSP: real, realEarnings: real, pe10: real, excessYield: real)

  /** The last bar of a month, and the first moment at which the month was known. */
  datatype Anchor = Anchor(lastTS: int, firstTS: int)

  function AnchorOf(p: Point, anchors: map<int, Anchor>): Anchor {
    if p.month in anchors then anchors[p.month] else Anchor(p.periodEnd - SECOND, p.knownAt)
  }

  function RowFor(dataset: string, factor: string, value: real, anchor: Anchor): seq<Row> {
    if value == 0.0 then [] else [Row(Key(dataset, factor, anchor.lastTS, anchor.firstTS), value, 0)]
  }

  /** `rows` and the observations of one month, factor after factor. */
  function MonthRows(rows: seq<Row>, dataset: string, p: Point, a: Anchor, priceFactor: string): seq<Row> {
    rows
      + RowFor(dataset, priceFactor, p.price, a)
      + RowFor(dataset, "earnings", p.earnings, a)
      + RowFor(dataset, "CPI", p.cpi, a)
      + RowFor(dataset, "rate_GS10", p.rateGS10, a)
      + RowFor(dataset, "real_sp", p.realSP, a)
      + RowFor(dataset, "real_earnings", p.realEarnings, a)
      + RowFor(dataset, "pe10", Max(p.pe10, 0.0), a)
      + RowFor(dataset, "excess_cape_yield", p.excessYield, a)
  }

  /** All observations of the points, month after month. */
  function ObservationRows(dataset: string, points: seq<Point>, anchors: map<int, Anchor>,
      priceFactor: string): seq<Row> {
    if points == [] then []
    else
      var p := points[|points| - 1];
      var before := ObservationRows(dataset, points[..|points| - 1], anchors, priceFactor);
      MonthRows(before, dataset, p, AnchorOf(p, anchors), priceFactor)
  }

  method AppendMacroObservation(rows: seq<Row>, dataset: string, factor: string, value: real, anchor: Anchor)
    returns (r: seq<Row>)
    ensures r == rows + RowFor(dataset, factor, value, anchor)
  {
    if value == 0.0 {
      return rows;
    }
    return rows + [Row(Key(dataset, factor, anchor.lastTS, anchor.firstTS), value, 0)];
  }

  method AppendMonth(before: seq<Row>, dataset: string, point: Point, anchor: Anchor, priceFactor: string)
    returns (rows: seq<Row>)
    ensures rows == MonthRows(before, dataset, point, anchor, priceFactor)
  {
    hide RowFor;
    rows := AppendMacroObservation(before, dataset, priceFactor, point.price, anchor);
    rows := AppendMacroObservation(rows, dataset, "earnings", point.earnings, anchor);
    rows := AppendMacroObservation(rows, dataset, "CPI", point.cpi, anchor);
    rows := AppendMacroObservation(rows, dataset, "rate_GS10", point.rateGS10, anchor);
    rows := AppendMacroObservation(rows, dataset, "real_sp", point.realSP, anchor);
    rows := AppendMacroObservation(rows, dataset, "real_earnings", point.realEarnings, anchor);
    ghost var six := rows;
    if point.pe10 > 0.0 {
      rows := AppendMacroObservation(rows, dataset, "pe10", point.pe10, anchor);
    }
    assert rows == six + RowFor(dataset, "pe10", Max(point.pe10, 0.0), anchor) by {
      NoRowFor(dataset, "pe10", anchor);
    }
    ghost var seven := rows;
    if point.excessYield != 0.0 {
      rows := AppendMacroObservation(rows, dataset, "excess_cape_yield", point.excessYield, anchor);
    }
    assert rows == seven + RowFor(dataset, "excess_cape_yield", point.excessYield, anchor) by {
      NoRowFor(dataset, "excess_cape_yield", anchor);
    }
  }

  method BuildObservationRows(dataset: string, points: seq<Point>, anchors: map<int, Anchor>, priceFactor: string)
    returns (rows: seq<Row>)
    ensures rows == ObservationRows(dataset, points, anchors, priceFactor)
  {
    hide MonthRows;
    rows := [];
    for i := 0 to |points|
      invariant rows == ObservationRows(dataset, points[..i], anchors, priceFactor)
    {
      assert points[..i + 1][..i] == points[..i];
      var point := points[i];
      var anchor := Anchor(point.periodEnd - SECOND, point.knownAt);
      if point.month in anchors {
        anchor := anchors[point.month];
      }
      rows := AppendMonth(rows, dataset, point, anchor, priceFactor);
    }
    assert points[..|points|] == points;
  }

  lemma NoRowFor(dataset: string, factor: string, anchor: Anchor)
    ensures RowFor(dataset, factor, 0.0, anchor) == []
  {
  }

  /** What the months of a sync are, one after the other. */
  predicate MonthsInOrder(points: seq<Point>) {
    && (forall i :: 0 <= i < |points| ==> points[i].month + SECOND <= points[i].periodEnd)
    && (forall i, j :: 0 <= i < j < |points| ==> points[i].periodEnd <= points[j].month)
  }

  /** Months start on a whole second, and the table that anchors are read from keeps whole seconds. */
  predicate WholeTimes(points: seq<Point>, anchors: map<int, Anchor>) {
    && (forall i :: 0 <= i < |points| ==> Seconds(points[i].periodEnd) == points[i].periodEnd)
    && (forall i :: 0 <= i < |points| ==> Seconds(points[i].knownAt) == points[i].knownAt)
    && (forall m :: m in anchors ==> Seconds(anchors[m].lastTS) == anchors[m].lastTS)
    && (forall m :: m in anchors ==> Seconds(anchors[m].firstTS) == anchors[m].firstTS)
  }

  /** The last bar of a month lies in the month. */
  predicate AnchorsInMonth(points: seq<Point>, anchors: map<int, Anchor>) {
    forall i :: 0 <= i < |points| && points[i].month in anchors ==>
      points[i].month <= anchors[points[i].month].lastTS < points[i].periodEnd
  }

  /** Rows as a sync hands them in, of which the last month's have the given factors so far. */
  predicate Observed(rows: seq<Row>, month: int, periodEnd: int, factors: set<string>) {
    && DistinctKeys(rows) && Whole(rows)
    && forall r :: r in rows ==>
         && r.revision == 0 && r.key.event < periodEnd
         && (r.key.event < month || r.key.factor in factors)
  }

  lemma ObserveOne(rows: seq<Row>, month: int, periodEnd: int, factors: set<string>,
                   dataset: string, factor: string, value: real, anchor: Anchor)
    requires Observed(rows, month, periodEnd, factors) && factor !in factors
    requires month <= anchor.lastTS < periodEnd
    requires Seconds(anchor.lastTS) == anchor.lastTS && Seconds(anchor.firstTS) == anchor.firstTS
    ensures Observed(rows + RowFor(dataset, factor, value, anchor), month, periodEnd, factors + {factor})
  {
    hide Seconds;
    if value != 0.0 {
      var x := Row(Key(dataset, factor, anchor.lastTS, anchor.firstTS), value, 0);
      var all := rows + [x];
      forall i, j | 0 <= i < j < |all|
        ensures all[i].key != all[j].key
      {
        assert all[i] in rows;
      }
      assert Observed(all, month, periodEnd, factors + {factor});
    } else {
      assert rows + [] == rows;
    }
  }

  lemma SubtractSecond(t: int)
    requires Seconds(t) == t
    ensures Seconds(t - SECOND) == t - SECOND
  {
  }

  lemma ObserveNextMonth(rows: seq<Row>, month: int, periodEnd: int, factors: set<string>, month': int, periodEnd': int)
    requires Observed(rows, month, periodEnd, factors) && periodEnd <= month' <= periodEnd'
    ensures Observed(rows, month', periodEnd', {})
  {
  }

  function Factors(priceFactor: string): set<string> {
    {} + {priceFactor} + {"earnings"} + {"CPI"} + {"rate_GS10"} + {"real_sp"} + {"real_earnings"} + {"pe10"}
      + {"excess_cape_yield"}
  }

  lemma MonthIsObserved(rows: seq<Row>, dataset: string, p: Point, a: Anchor, priceFactor: string)
    requires Observed(rows, p.month, p.periodEnd, {}) && priceFactor in {"sp500", "ndx"}
    requires p.month <= a.lastTS < p.periodEnd && Seconds(a.lastTS) == a.lastTS && Seconds(a.firstTS) == a.firstTS
    ensures Observed(MonthRows(rows, dataset, p, a, priceFactor), p.month, p.periodEnd, Factors(priceFactor))
  {
    hide Observed;
    hide RowFor;
    hide Seconds;
    hide Max;
    var all, codes := rows, {};
    ObserveOne(all, p.month, p.periodEnd, codes, dataset, priceFactor, p.price, a);
    all, codes := all + RowFor(dataset, priceFactor, p.price, a), codes + {priceFactor};
    ObserveOne(all, p.month, p.periodEnd, codes, dataset, "earnings", p.earnings, a);
    all, codes := all + RowFor(dataset, "earnings", p.earnings, a), codes + {"earnings"};
    ObserveOne(all, p.month, p.periodEnd, codes, dataset, "CPI", p.cpi, a);
    all, codes := all + RowFor(dataset, "CPI", p.cpi, a), codes + {"CPI"};
    ObserveOne(all, p.month, p.periodEnd, codes, dataset, "rate_GS10", p.rateGS10, a);
    all, codes := all + RowFor(dataset, "rate_GS10", p.rateGS10, a), codes + {"rate_GS10"};
    ObserveOne(all, p.month, p.periodEnd, codes, dataset, "real_sp", p.realSP, a);
    all, codes := all + RowFor(dataset, "real_sp", p.realSP, a), codes + {"real_sp"};
    ObserveOne(all, p.month, p.periodEnd, codes, dataset, "real_earnings", p.realEarnings, a);
    all, codes := all + RowFor(dataset, "real_earnings", p.realEarnings, a), codes + {"real_earnings"};
    ObserveOne(all, p.month, p.periodEnd, codes, dataset, "pe10", Max(p.pe10, 0.0), a);
    all, codes := all + RowFor(dataset, "pe10", Max(p.pe10, 0.0), a), codes + {"pe10"};
    ObserveOne(all, p.month, p.periodEnd, codes, dataset, "excess_cape_yield", p.excessYield, a);
  }

  lemma NoRowsObserved(month: int, periodEnd: int)
    ensures Observed([], month, periodEnd, {})
  {
  }

  lemma AnchorIsInMonth(points: seq<Point>, anchors: map<int, Anchor>, i: nat)
    requires MonthsInOrder(points) && WholeTimes(points, anchors) && AnchorsInMonth(points, anchors) && i < |points|
    ensures var p, a := points[i], AnchorOf(points[i], anchors);
      p.month <= a.lastTS < p.periodEnd && Seconds(a.lastTS) == a.lastTS && Seconds(a.firstTS) == a.firstTS
  {
    SubtractSecond(points[i].periodEnd);
    hide Seconds;
  }

  lemma FrontMonths(points: seq<Point>, anchors: map<int, Anchor>)
    requires MonthsInOrder(points) && WholeTimes(points, anchors) && AnchorsInMonth(points, anchors) && points != []
    ensures var front := points[..|points| - 1];
      MonthsInOrder(front) && WholeTimes(front, anchors) && AnchorsInMonth(front, anchors)
    ensures |points| > 1 ==> points[|points| - 2].periodEnd <= points[|points| - 1].month
    ensures points[|points| - 1].month <= points[|points| - 1].periodEnd
  {
    hide Seconds;
  }

  lemma ObservationRowsStep(dataset: string, points: seq<Point>, anchors: map<int, Anchor>, priceFactor: string)
    requires points != []
    ensures var front, p := points[..|points| - 1], points[|points| - 1];
      ObservationRows(dataset, points, anchors, priceFactor)
        == MonthRows(ObservationRows(dataset, front, anchors, priceFactor), dataset, p, AnchorOf(p, anchors),
                     priceFactor)
    ensures ObservationRows(dataset, [], anchors, priceFactor) == []
  {
    hide MonthRows;
  }

  lemma {:induction false} RowsAreObserved(dataset: string, points: seq<Point>, anchors: map<int, Anchor>,
                                           priceFactor: string)
    requires MonthsInOrder(points) && WholeTimes(points, anchors) && AnchorsInMonth(points, anchors)
    requires priceFactor in {"sp500", "ndx"} && points != []
    ensures var last := points[|points| - 1];
      Observed(ObservationRows(dataset, points, anchors, priceFactor), last.month, last.periodEnd, Factors(priceFactor))
  {
    hide *;
    var front, p := points[..|points| - 1], points[|points| - 1];
    var rows := ObservationRows(dataset, front, anchors, priceFactor);
    FrontMonths(points, anchors);
    ObservationRowsStep(dataset, points, anchors, priceFactor);
    AnchorIsInMonth(points, anchors, |points| - 1);
    if front == [] {
      NoRowsObserved(p.month, p.periodEnd);
    } else {
      var before := front[|front| - 1];
      RowsAreObserved(dataset, front, anchors, priceFactor);
      ObserveNextMonth(rows, before.month, before.periodEnd, Factors(priceFactor), p.month, p.periodEnd);
    }
    MonthIsObserved(rows, dataset, p, AnchorOf(p, anchors), priceFactor);
  }

  /** The rows that the program syncs: times are whole seconds, no two rows have one key, and every
      row comes with revision 0. */
  lemma SyncRowsAreProper(dataset: string, points: seq<Point>, anchors: map<int, Anchor>, priceFactor: string)
    requires MonthsInOrder(points) && WholeTimes(points, anchors) && AnchorsInMonth(points, anchors)
    requires priceFactor in {"sp500", "ndx"}
    ensures var rows := ObservationRows(dataset, points, anchors, priceFactor);
      DistinctKeys(rows) && Whole(rows) && forall r :: r in rows ==> r.revision == 0
  {
    if points != [] {
      RowsAreObserved(dataset, points, anchors, priceFactor);
      hide Factors;
      hide DistinctKeys;
      hide Whole;
      hide ObservationRows;
    }
  }

  /** A sync is idempotent: whatever the table held, syncing the program's rows again appends
      nothing. */
  lemma RerunAppendsNothing(store: seq<Row>, dataset: string, points: seq<Point>, anchors: map<int, Anchor>,
                            priceFactor: string)
    requires MonthsInOrder(points) && WholeTimes(points, anchors) && AnchorsInMonth(points, anchors)
    requires priceFactor in {"sp500", "ndx"}
    ensures var rows := ObservationRows(dataset, points, anchors, priceFactor);
      NewRows(Synced(store, rows, |NewRows(store, rows)|), rows) == []
  {
    var rows := ObservationRows(dataset, points, anchors, priceFactor);
    SyncRowsAreProper(dataset, points, anchors, priceFactor);
    hide *;
    ResumeCompletes(store, rows, |NewRows(store, rows)|);
  }

  lemma EmptyTable(row: Row)
    ensures NewRow([], row) == [row]
  {
  }

  /** Two rows of one sync with one key are both appended under one revision. */
  lemma OneKeyTwice(k: Key)
    requires WholeSeconds(k)
    ensures var rows := [Row(k, 1.0, 0), Row(k, 2.0, 0)];
      Synced([], rows, |NewRows([], rows)|) == rows
  {
    var rows := [Row(k, 1.0, 0), Row(k, 2.0, 0)];
    assert Whole(rows);
    EmptyTable(rows[0]);
    EmptyTable(rows[1]);
    NoRows([]);
    hide *;
    NewRowsStep([], rows, 0);
    NewRowsStep([], rows, 1);
    assert rows[..0] == [] && rows[..2] == rows == [rows[0]] + [rows[1]];
    SyncedAll([], rows);
  }

  // ---- Whole runs ----

  function Count(store: seq<Row>, k: Key): nat {
    if store == [] then 0 else Count(store[..|store| - 1], k) + if store[|store| - 1].key == k then 1 else 0
  }

  /** The rows of a key carry the revisions 0, 1, 2, ... in the order they arrived. */
  predicate Numbered(store: seq<Row>) {
    store == [] ||
    (var front, last := store[..|store| - 1], store[|store| - 1];
     Numbered(front) && last.revision == Count(front, last.key))
  }

  lemma {:induction false} NumberedLatest(store: seq<Row>, k: Key)
    requires Numbered(store)
    ensures Latest(store, k).None? <==> Count(store, k) == 0
    ensures Latest(store, k).Some? ==> Latest(store, k).value.revision + 1 == Count(store, k)
  {
    if store == [] {
    } else {
      NumberedLatest(store[..|store| - 1], k);
      hide Keys;
    }
  }

  lemma {:induction false} CountElsewhere(store: seq<Row>, more: seq<Row>, k: Key)
    requires k !in Keys(more)
    ensures Count(store + more, k) == Count(store, k)
  {
    if more == [] {
      assert store + more == store;
    } else {
      var front := more[..|more| - 1];
      assert (store + more)[..|store + more| - 1] == store + front;
      assert more[|more| - 1] in more && forall r :: r in front ==> r in more;
      CountElsewhere(store, front, k);
    }
  }

  lemma NumberedAppend(store: seq<Row>, x: Row)
    requires Numbered(store) && x.revision == Count(store, x.key)
    ensures Numbered(store + [x])
  {
    assert (store + [x])[..|store|] == store;
  }

  lemma {:induction false} SyncKeepsNumbered(store: seq<Row>, rows: seq<Row>)
    requires Numbered(store) && DistinctKeys(rows) && (forall r :: r in rows ==> r.revision == 0)
    ensures Numbered(store + NewRows(store, rows))
  {
    if rows == [] {
      assert store + [] == store;
    } else {
      var front, last := rows[..|rows| - 1], rows[|rows| - 1];
      SyncKeepsNumbered(store, front);
      var before, after := NewRowsAround(store, rows, |rows| - 1);
      var one := NewRow(store, last);
      assert NewRows(store, rows) == before + one;
      NumberedLatest(store, last.key);
      CountElsewhere(store, before, last.key);
      hide NewRows;
      hide Numbered;
      hide Count;
      hide Latest;
      if one == [] {
        assert store + (before + one) == store + before;
      } else {
        assert store + (before + one) == store + before + [one[0]];
        NumberedAppend(store + before, one[0]);
      }
    }
  }

  lemma {:induction false} NumberedFront(store: seq<Row>, n: nat)
    requires Numbered(store) && n <= |store|
    ensures Numbered(store[..n])
  {
    if n == |store| {
      assert store[..n] == store;
    } else {
      NumberedFront(store[..|store| - 1], n);
      assert store[..|store| - 1][..n] == store[..n];
    }
  }

  /** A sync of some rows, of which only the first `sent` new ones arrive. */
  datatype Sync = Sync(rows: seq<Row>, sent: nat)

  predicate Proper(s: Sync) {
    DistinctKeys(s.rows) && Whole(s.rows) && forall r :: r in s.rows ==> r.revision == 0
  }

  function RunSync(store: seq<Row>, s: Sync): seq<Row> {
    var all := |NewRows(store, s.rows)|;
    Synced(store, s.rows, if s.sent < all then s.sent else all)
  }

  function Run(store: seq<Row>, syncs: seq<Sync>): seq<Row> {
    if syncs == [] then store else RunSync(Run(store, syncs[..|syncs| - 1]), syncs[|syncs| - 1])
  }

  /** Over any run of syncs, complete or cut short anywhere, every key's revisions are 0, 1, 2, ...
      in order: each append raises the latest revision by exactly one. */
  lemma {:induction false} RunKeepsNumbered(store: seq<Row>, syncs: seq<Sync>, k: Key)
    requires Numbered(store) && forall s :: s in syncs ==> Proper(s)
    ensures var after := Run(store, syncs);
      && Numbered(after)
      && (Latest(after, k).None? <==> Count(after, k) == 0)
      && (Latest(after, k).Some? ==> Latest(after, k).value.revision + 1 == Count(after, k))
  {
    if syncs == [] {
    } else {
      var front, last := syncs[..|syncs| - 1], syncs[|syncs| - 1];
      RunKeepsNumbered(store, front, k);
      RunSyncKeepsNumbered(Run(store, front), last);
      hide Numbered;
    }
    NumberedLatest(Run(store, syncs), k);
  }

  lemma RunSyncKeepsNumbered(store: seq<Row>, s: Sync)
    requires Numbered(store) && Proper(s)
    ensures Numbered(RunSync(store, s))
  {
    hide Numbered;
    var all := NewRows(store, s.rows);
    SyncKeepsNumbered(store, s.rows);
    var n := if s.sent < |all| then s.sent else |all|;
    SyncedWhole(store, s.rows, n);
    NumberedFront(store + all, |store| + n);
    assert (store + all)[..|store| + n] == store + all[..n];
  }
}
