/**
 Byte accounting per minute with five-second peak windows (internal/api/traffic_meter.go:13-264).
 Times are nanoseconds; counters do not wrap here.
 */
module TrafficMeter {
  import opened Sums

  const WINDOW: nat := 5_000_000_000
  const MINUTE: nat := 12 * WINDOW

  function Truncate(at: nat, unit: nat): nat
    requires unit > 0
  {
    at - at % unit
  }

  datatype Record = Record(method_: string, route: string, statusClass: nat)

  datatype Key = Key(minute: nat, record: Record)

  datatype Window = Window(ingress: nat, egress: nat)

  /** `peaks` is keyed by the start of the window. */
  datatype Bucket = Bucket(requests: nat, ingress: nat, egress: nat, peaks: map<nat, Window>)

  datatype Event = Event(at: nat, ingress: nat, egress: nat)

  datatype Row = Row(key: Key, requests: nat, ingress: nat, egress: nat, peakIngress: nat, peakEgress: nat,
      peakTotal: nat)

  /** The three counters of a bucket. */
  datatype Counter = Requests | IngressBytes | EgressBytes

  function Pick(c: Counter, requests: nat, ingress: nat, egress: nat): nat {
    match c
    case Requests => requests
    case IngressBytes => ingress
    case EgressBytes => egress
  }

  const EMPTY := Bucket(0, 0, 0, map[])

  type Buckets = map<Key, Bucket>

  /** The metadata a request is filed under. */
  function Normalized(r: Record): Record {
    Record(if r.method_ == "" then "UNKNOWN" else r.method_,
           if r.route == "" then "unmatched" else r.route,
           if r.statusClass == 0 then 500 else r.statusClass)
  }

  function KeyAt(at: nat, r: Record): Key {
    Key(Truncate(at, MINUTE), r)
  }

  function WithRequest(b: Bucket): Bucket {
    b.(requests := b.requests + 1)
  }

  function WithEvent(b: Bucket, e: Event): Bucket {
    var start := Truncate(e.at, WINDOW);
    var w := GetOr(b.peaks, start, Window(0, 0));
    Bucket(b.requests, b.ingress + e.ingress, b.egress + e.egress,
           b.peaks[start := Window(w.ingress + e.ingress, w.egress + e.egress)])
  }

  function FileEvent(buckets: Buckets, r: Record, e: Event): Buckets {
    var key := KeyAt(e.at, r);
    buckets[key := WithEvent(GetOr(buckets, key, EMPTY), e)]
  }

  function FileEvents(buckets: Buckets, r: Record, events: seq<Event>): Buckets {
    if events == [] then buckets
    else FileEvent(FileEvents(buckets, r, events[..|events| - 1]), r, events[|events| - 1])
  }

  /** The whole effect of the first Finish of a request. */
  function Filed(buckets: Buckets, record: Record, now: nat, events: seq<Event>): Buckets {
    var r := Normalized(record);
    var key := KeyAt(now, r);
    FileEvents(buckets[key := WithRequest(GetOr(buckets, key, EMPTY))], r, events)
  }

  function Discarded(buckets: Buckets, cutoff: nat): Buckets {
    map k | k in buckets && !(k.minute < Truncate(cutoff, MINUTE)) :: buckets[k]
  }

  // ---- Snapshots ----

  function Ingress(): Window -> nat { (w: Window) => w.ingress }

  function Egress(): Window -> nat { (w: Window) => w.egress }

  function Both(): Window -> nat { (w: Window) => w.ingress + w.egress }

  /** `p` is the maximum of `f` over the windows, and 0 if there are none. */
  ghost predicate IsPeak(peaks: map<nat, Window>, f: Window -> nat, p: nat) {
    && (forall w :: w in peaks ==> f(peaks[w]) <= p)
    && (p == 0 || exists w :: w in peaks && f(peaks[w]) == p)
  }

  ghost predicate ArePeaks(peaks: map<nat, Window>, ingress: nat, egress: nat, total: nat) {
    IsPeak(peaks, Ingress(), ingress) && IsPeak(peaks, Egress(), egress) && IsPeak(peaks, Both(), total)
  }

  ghost predicate IsRow(row: Row, key: Key, b: Bucket) {
    && row == Row(key, b.requests, b.ingress, b.egress, row.peakIngress, row.peakEgress, row.peakTotal)
    && ArePeaks(b.peaks, row.peakIngress, row.peakEgress, row.peakTotal)
  }

  /** The rows of the completed minutes: one for each bucket before the cutoff, in any order. */
  ghost predicate IsSnapshot(buckets: Buckets, cutoff: nat, rows: seq<Row>) {
    && (forall i :: 0 <= i < |rows| ==>
          rows[i].key in buckets && rows[i].key.minute < Truncate(cutoff, MINUTE)
            && IsRow(rows[i], rows[i].key, buckets[rows[i].key]))
    && (forall k :: k in buckets && k.minute < Truncate(cutoff, MINUTE) ==>
      exists i :: 0 <= i < |rows| && rows[i].key == k)
    && (forall i, j :: 0 <= i < j < |rows| ==> rows[i].key != rows[j].key)
  }

  class Meter {
    var buckets: Buckets

    constructor ()
      ensures buckets == map[]
    {
      buckets := map[];
    }

    /** Add a request to its bucket, making the bucket if it is missing. */
    method CountRequest(key: Key)
      modifies this
      ensures buckets == old(buckets)[key := WithRequest(GetOr(old(buckets), key, EMPTY))]
    {
      if key !in buckets {
        buckets := buckets[key := Bucket(0, 0, 0, map[])];
      }
      buckets := buckets[key := buckets[key].(requests := buckets[key].requests + 1)];
    }

    method CountEvent(r: Record, e: Event)
      modifies this
      ensures buckets == FileEvent(old(buckets), r, e)
    {
      var key := Key(Truncate(e.at, MINUTE), r);
      if key !in buckets {
        buckets := buckets[key := Bucket(0, 0, 0, map[])];
      }
      var b := buckets[key];
      b := b.(ingress := b.ingress + e.ingress, egress := b.egress + e.egress);
      var start := Truncate(e.at, WINDOW);
      var peak := if start in b.peaks then b.peaks[start] else Window(0, 0);
      peak := Window(peak.ingress + e.ingress, peak.egress + e.egress);
      b := b.(peaks := b.peaks[start := peak]);
      buckets := buckets[key := b];
    }

    method PeaksOf(peaks: map<nat, Window>) returns (ingress: nat, egress: nat, total: nat)
      ensures ArePeaks(peaks, ingress, egress, total)
    {
      hide *;
      ingress, egress, total := 0, 0, 0;
      var rest := peaks.Keys;
      NoPeaks(peaks);
      while rest != {}
        invariant rest <= peaks.Keys && ArePeaks(Seen(peaks, rest), ingress, egress, total)
        decreases |rest|
      {
        var w :| w in rest;
        var peak := peaks[w];
        PeaksStep(peaks, rest, w, ingress, egress, total);
        if peak.ingress > ingress {
          ingress := peak.ingress;
        }
        if peak.egress > egress {
          egress := peak.egress;
        }
        if peak.ingress + peak.egress > total {
          total := peak.ingress + peak.egress;
        }
        rest := rest - {w};
      }
      AllSeen(peaks);
    }

    method Snapshot(cutoff: nat) returns (rows: seq<Row>)
      ensures IsSnapshot(buckets, cutoff, rows)
    {
      rows := [];
      var rest := buckets.Keys;
      while rest != {}
        invariant rest <= buckets.Keys
        invariant IsSnapshot(map k | k in buckets && k !in rest :: buckets[k], cutoff, rows)
        decreases |rest|
      {
        var k :| k in rest;
        ghost var before := map x | x in buckets && x !in rest :: buckets[x];
        ghost var after := before[k := buckets[k]];
        assert after == map x | x in buckets && x !in rest - {k} :: buckets[x];
        if k.minute < Truncate(cutoff, MINUTE) {
          var b := buckets[k];
          var ingress, egress, total := PeaksOf(b.peaks);
          var row := Row(k, b.requests, b.ingress, b.egress, ingress, egress, total);
          SnapshotStep(before, k, b, cutoff, rows, row);
          rows := rows + [row];
        } else {
          SnapshotSkip(before, k, buckets[k], cutoff, rows);
        }
        rest := rest - {k};
      }
      assert buckets == map k | k in buckets && k !in rest :: buckets[k];
    }

    method DiscardBefore(cutoff: nat)
      modifies this
      ensures buckets == Discarded(old(buckets), cutoff)
    {
      var limit := Truncate(cutoff, MINUTE);
      var rest := buckets.Keys;
      while rest != {}
        invariant rest <= buckets.Keys <= old(buckets).Keys
        invariant forall k :: k in buckets ==> buckets[k] == old(buckets)[k]
        invariant forall k :: k in old(buckets) && k !in rest ==> (k in buckets <==> !(k.minute < limit))
        decreases |rest|
      {
        var k :| k in rest;
        if k.minute < limit {
          buckets := buckets - {k};
        }
        rest := rest - {k};
      }
    }
  }

  /** The windows that a loop over them has left behind. */
  ghost function Seen(peaks: map<nat, Window>, rest: set<nat>): map<nat, Window> {
    map w | w in peaks && w !in rest :: peaks[w]
  }

  lemma NoPeaks(peaks: map<nat, Window>)
    ensures ArePeaks(Seen(peaks, peaks.Keys), 0, 0, 0)
  {
  }

  lemma AllSeen(peaks: map<nat, Window>)
    ensures Seen(peaks, {}) == peaks
  {
  }

  lemma SeenStep(peaks: map<nat, Window>, rest: set<nat>, w: nat)
    requires w in rest && rest <= peaks.Keys
    ensures w !in Seen(peaks, rest) && Seen(peaks, rest - {w}) == Seen(peaks, rest)[w := peaks[w]]
  {
  }

  lemma PeakStep(peaks: map<nat, Window>, w: nat, x: Window, f: Window -> nat, p: nat)
    requires w !in peaks && IsPeak(peaks, f, p)
    ensures IsPeak(peaks[w := x], f, if f(x) > p then f(x) else p)
  {
    var more := peaks[w := x];
    if f(x) <= p && p != 0 {
      var v :| v in peaks && f(peaks[v]) == p;
      assert v in more && f(more[v]) == p;
    } else if f(x) > p {
      assert w in more && f(more[w]) == f(x);
    }
  }

  lemma PeaksStep(peaks: map<nat, Window>, rest: set<nat>, w: nat, ingress: nat, egress: nat, total: nat)
    requires w in rest && rest <= peaks.Keys && ArePeaks(Seen(peaks, rest), ingress, egress, total)
    ensures var x := peaks[w];
      ArePeaks(Seen(peaks, rest - {w}), if x.ingress > ingress then x.ingress else ingress,
               if x.egress > egress then x.egress else egress,
               if x.ingress + x.egress > total then x.ingress + x.egress else total)
  {
    hide IsPeak;
    hide Seen;
    SeenStep(peaks, rest, w);
    PeakStep(Seen(peaks, rest), w, peaks[w], Ingress(), ingress);
    PeakStep(Seen(peaks, rest), w, peaks[w], Egress(), egress);
    PeakStep(Seen(peaks, rest), w, peaks[w], Both(), total);
  }

  lemma SnapshotStep(buckets: Buckets, k: Key, b: Bucket, cutoff: nat, rows: seq<Row>, row: Row)
    requires k !in buckets && k.minute < Truncate(cutoff, MINUTE)
    requires IsSnapshot(buckets, cutoff, rows) && IsRow(row, k, b)
    ensures IsSnapshot(buckets[k := b], cutoff, rows + [row])
  {
    hide IsRow;
    var more, all := buckets[k := b], rows + [row];
    assert row.key == k by { RowKey(row, k, b); }
    forall x | x in more && x.minute < Truncate(cutoff, MINUTE)
      ensures exists i :: 0 <= i < |all| && all[i].key == x
    {
      if x == k {
        assert all[|rows|].key == k;
      } else {
        var i :| 0 <= i < |rows| && rows[i].key == x;
        assert all[i].key == x;
      }
    }
  }

  lemma RowKey(row: Row, k: Key, b: Bucket)
    requires IsRow(row, k, b)
    ensures row.key == k
  {
  }

  lemma SnapshotSkip(buckets: Buckets, k: Key, b: Bucket, cutoff: nat, rows: seq<Row>)
    requires k !in buckets && !(k.minute < Truncate(cutoff, MINUTE)) && IsSnapshot(buckets, cutoff, rows)
    ensures IsSnapshot(buckets[k := b], cutoff, rows)
  {
    hide IsRow;
  }

  /** One HTTP request being measured. */
  class Request {
    const meter: Meter
    var finished: bool
    var events: seq<Event>

    constructor (meter: Meter)
      ensures this.meter == meter && !finished && events == []
    {
      this.meter, finished, events := meter, false, [];
    }

    method AddIngress(at: nat, bytes: nat)
      modifies this
      ensures finished == old(finished)
      ensures events == if bytes == 0 || finished then old(events) else old(events) + [Event(at, bytes, 0)]
    {
      if bytes == 0 {
        return;
      }
      if !finished {
        events := events + [Event(at, bytes, 0)];
      }
    }

    method AddEgress(at: nat, bytes: nat)
      modifies this
      ensures finished == old(finished)
      ensures events == if bytes == 0 || finished then old(events) else old(events) + [Event(at, 0, bytes)]
    {
      if bytes == 0 {
        return;
      }
      if !finished {
        events := events + [Event(at, 0, bytes)];
      }
    }

    /** Only the first call counts. */
    method Finish(record: Record, now: nat)
      modifies this, meter
      ensures finished && (old(finished) ==> events == old(events)) && (!old(finished) ==> events == [])
      ensures meter.buckets ==
        if old(finished) then old(meter.buckets) else Filed(old(meter.buckets), record, now, old(events))
    {
      if finished {
        return;
      }
      finished := true;
      var taken := events;
      events := [];
      var r := record;
      if r.method_ == "" {
        r := r.(method_ := "UNKNOWN");
      }
      if r.route == "" {
        r := r.(route := "unmatched");
      }
      if r.statusClass == 0 {
        r := r.(statusClass := 500);
      }
      meter.CountRequest(Key(Truncate(now, MINUTE), r));
      ghost var counted := meter.buckets;
      for i := 0 to |taken|
        invariant finished && events == [] && meter.buckets == FileEvents(counted, r, taken[..i])
      {
        assert taken[..i + 1][..i] == taken[..i];
        meter.CountEvent(r, taken[i]);
      }
      assert taken[..|taken|] == taken;
    }
  }

  // ---- Windows and peaks ----

  function WindowBytes(peaks: map<nat, Window>, f: Window -> nat): map<nat, real> {
    map w | w in peaks :: f(peaks[w]) as real
  }

  /** A bucket's windows start on a window boundary inside its minute, and add up to its totals. */
  ghost predicate SoundBucket(k: Key, b: Bucket) {
    && k.minute % MINUTE == 0
    && (forall w :: w in b.peaks ==> w % WINDOW == 0 && k.minute <= w < k.minute + MINUTE)
    && Total(WindowBytes(b.peaks, Ingress())) == b.ingress as real
    && Total(WindowBytes(b.peaks, Egress())) == b.egress as real
  }

  ghost predicate SoundMeter(buckets: Buckets) {
    forall k :: k in buckets ==> SoundBucket(k, buckets[k])
  }

  lemma EmptyIsSound(k: Key)
    requires k.minute % MINUTE == 0
    ensures SoundBucket(k, EMPTY)
  {
    TotalZero(WindowBytes(map[], Ingress()));
    TotalZero(WindowBytes(map[], Egress()));
  }

  lemma Remainder(x: nat, unit: nat, q: nat, r: nat)
    requires unit in {WINDOW, MINUTE} && x == unit * q + r && r < unit
    ensures x % unit == r
  {
    if unit == WINDOW {
      assert x / WINDOW == q;
    } else {
      assert x / MINUTE == q;
    }
  }

  /** The window of a moment lies in the minute of that moment. */
  lemma WindowInMinute(at: nat)
    ensures Truncate(at, MINUTE) <= Truncate(at, WINDOW) < Truncate(at, MINUTE) + MINUTE
    ensures Truncate(at, WINDOW) % WINDOW == 0 && Truncate(at, MINUTE) % MINUTE == 0
  {
    var q, s := at / WINDOW, at % WINDOW;
    var h, g := q / 12, q % 12;
    assert at == MINUTE * h + (WINDOW * g + s);
    Remainder(at, MINUTE, h, WINDOW * g + s);
    Remainder(WINDOW * q, WINDOW, q, 0);
    Remainder(MINUTE * h, MINUTE, h, 0);
  }

  lemma EventIsSound(k: Key, b: Bucket, e: Event)
    requires SoundBucket(k, b) && k.minute == Truncate(e.at, MINUTE)
    ensures SoundBucket(k, WithEvent(b, e))
  {
    WindowInMinute(e.at);
    var start := Truncate(e.at, WINDOW);
    var after := WithEvent(b, e);
    hide Truncate;
    hide Total;
    var w := after.peaks[start];
    assert WindowBytes(after.peaks, Ingress()) == WindowBytes(b.peaks, Ingress())[start := w.ingress as real];
    assert WindowBytes(after.peaks, Egress()) == WindowBytes(b.peaks, Egress())[start := w.egress as real];
    TotalUpdate(WindowBytes(b.peaks, Ingress()), start, w.ingress as real);
    TotalUpdate(WindowBytes(b.peaks, Egress()), start, w.egress as real);
  }

  lemma {:induction false} EventsAreSound(buckets: Buckets, r: Record, events: seq<Event>)
    requires SoundMeter(buckets)
    ensures SoundMeter(FileEvents(buckets, r, events))
  {
    hide SoundBucket;
    if events == [] {
    } else {
      var e := events[|events| - 1];
      var before := FileEvents(buckets, r, events[..|events| - 1]);
      EventsAreSound(buckets, r, events[..|events| - 1]);
      var key := KeyAt(e.at, r);
      WindowInMinute(e.at);
      EmptyIsSound(key);
      EventIsSound(key, GetOr(before, key, EMPTY), e);
      hide WithEvent;
    }
  }

  lemma RequestIsSound(k: Key, b: Bucket)
    requires SoundBucket(k, b)
    ensures SoundBucket(k, WithRequest(b))
  {
  }

  lemma FiledIsSound(buckets: Buckets, record: Record, now: nat, events: seq<Event>)
    requires SoundMeter(buckets)
    ensures SoundMeter(Filed(buckets, record, now, events))
  {
    hide SoundBucket;
    var r := Normalized(record);
    hide Normalized;
    var key := KeyAt(now, r);
    WindowInMinute(now);
    EmptyIsSound(key);
    RequestIsSound(key, GetOr(buckets, key, EMPTY));
    hide WithRequest;
    EventsAreSound(buckets[key := WithRequest(GetOr(buckets, key, EMPTY))], r, events);
  }

  /** A minute has at most twelve windows. */
  lemma TwelveWindows(k: Key, b: Bucket)
    requires SoundBucket(k, b)
    ensures |b.peaks| <= 12
  {
    hide Total;
    forall w | w in b.peaks
      ensures 0 <= Index(k.minute, w) < 12 && w == k.minute + Index(k.minute, w) * WINDOW
    {
      WindowIndex(k.minute, w);
    }
    assert |b.peaks| == |b.peaks.Keys|;
    IndexedBy(b.peaks.Keys, k.minute, 12);
  }

  function Index(minute: nat, w: nat): int { (w - minute) / WINDOW }

  lemma WindowIndex(minute: nat, w: nat)
    requires minute % MINUTE == 0 && w % WINDOW == 0 && minute <= w < minute + MINUTE
    ensures 0 <= (w - minute) / WINDOW < 12 && w == minute + (w - minute) / WINDOW * WINDOW
  {
    assert minute == MINUTE * (minute / MINUTE);
    assert minute == WINDOW * (12 * (minute / MINUTE));
    assert w == WINDOW * (w / WINDOW);
    assert w - minute == WINDOW * (w / WINDOW - 12 * (minute / MINUTE));
  }

  /** A set of window starts is no larger than its range of indices. */
  lemma {:induction false} IndexedBy(starts: set<nat>, minute: nat, n: nat)
    requires forall w :: w in starts ==> 0 <= Index(minute, w) < n && w == minute + Index(minute, w) * WINDOW
    ensures |starts| <= n
  {
    if n == 0 {
      assert forall w :: w in starts ==> false;
      assert starts == {};
    } else {
      var last := minute + (n - 1) * WINDOW;
      forall w | w in starts - {last}
        ensures Index(minute, w) < n - 1
      {
        assert Index(minute, w) != n - 1;
      }
      IndexedBy(starts - {last}, minute, n - 1);
      assert starts <= starts - {last} + {last};
    }
  }

  /** n times p, as a sum. */
  ghost function Times(n: nat, p: real): real {
    if n == 0 then 0.0 else Times(n - 1, p) + p
  }

  predicate Within(m: map<nat, real>, p: real) {
    forall k :: k in m ==> 0.0 <= m[k] <= p
  }

  lemma DropKey(m: map<nat, real>, k: nat, p: real)
    requires k in m && Within(m, p)
    ensures Within(m - {k}, p) && 0.0 <= m[k] <= p
    ensures |m - {k}| == |m| - 1
  {
    SmallerWithout(m, k);
  }

  lemma {:induction false} TotalBetween(m: map<nat, real>, n: nat, p: real)
    requires |m| <= n && p >= 0.0 && Within(m, p)
    ensures 0.0 <= Total(m) <= Times(n, p)
  {
    hide *;
    TimesStep(n, p);
    if n == 0 {
      assert m == map[];
      TotalZero(m);
    } else if m == map[] {
      TotalBetween(m, n - 1, p);
    } else {
      var k :| k in m;
      DropKey(m, k, p);
      TotalSplit(m, k);
      TotalBetween(m - {k}, n - 1, p);
    }
  }

  lemma TermAtMostTotal(m: map<nat, real>, k: nat, p: real)
    requires k in m && p >= 0.0 && Within(m, p)
    ensures m[k] <= Total(m)
  {
    hide *;
    DropKey(m, k, p);
    TotalSplit(m, k);
    TotalBetween(m - {k}, |m - {k}|, p);
  }

  lemma TimesStep(n: nat, p: real)
    ensures Times(n, p) == if n == 0 then 0.0 else Times(n - 1, p) + p
  {
  }

  lemma {:induction false} TimesIsProduct(n: nat, p: nat)
    ensures Times(n, p as real) == (n * p) as real
  {
    if n == 0 {
    } else {
      TimesIsProduct(n - 1, p);
      assert n * p == (n - 1) * p + p;
    }
  }

  /** One kind of bytes: a peak is at most the total, and the total at most twelve peaks. */
  lemma PeakAndTotal(k: Key, b: Bucket, f: Window -> nat, p: nat, total: nat)
    requires SoundBucket(k, b) && IsPeak(b.peaks, f, p)
    requires Total(WindowBytes(b.peaks, f)) == total as real
    ensures p <= total <= 12 * p
  {
    var bytes := WindowBytes(b.peaks, f);
    TwelveWindows(k, b);
    hide Total;
    assert bytes.Keys == b.peaks.Keys && |bytes| == |bytes.Keys| && |b.peaks| == |b.peaks.Keys|;
    TotalBetween(bytes, 12, p as real);
    TimesIsProduct(12, p);
    hide Times;
    if p != 0 {
      var w :| w in b.peaks && f(b.peaks[w]) == p;
      assert w in bytes && bytes[w] == p as real;
      TermAtMostTotal(bytes, w, p as real);
    }
  }

  /** What the totals and the peaks of a row have to do with each other. */
  predicate PeakBounded(r: Row) {
    && r.peakIngress <= r.ingress <= 12 * r.peakIngress
    && r.peakEgress <= r.egress <= 12 * r.peakEgress
    && r.peakIngress <= r.peakTotal && r.peakEgress <= r.peakTotal
    && r.peakTotal <= r.peakIngress + r.peakEgress
  }

  /** The bounds every snapshot row of a sound meter satisfies. */
  lemma PeakBounds(buckets: Buckets, cutoff: nat, rows: seq<Row>)
    requires SoundMeter(buckets) && IsSnapshot(buckets, cutoff, rows)
    ensures forall i :: 0 <= i < |rows| ==> PeakBounded(rows[i])
  {
    forall i | 0 <= i < |rows|
      ensures PeakBounded(rows[i])
    {
      var r := rows[i];
      var b := buckets[r.key];
      PeakAndTotal(r.key, b, Ingress(), r.peakIngress, b.ingress);
      PeakAndTotal(r.key, b, Egress(), r.peakEgress, b.egress);
      hide Total;
      PeakOrder(b.peaks, r.peakIngress, r.peakEgress, r.peakTotal);
    }
  }

  lemma PeakOrder(peaks: map<nat, Window>, ingress: nat, egress: nat, total: nat)
    requires ArePeaks(peaks, ingress, egress, total)
    ensures ingress <= total && egress <= total && total <= ingress + egress
  {
    if ingress != 0 {
      var w :| w in peaks && Ingress()(peaks[w]) == ingress;
      assert Both()(peaks[w]) <= total;
    }
    if egress != 0 {
      var w :| w in peaks && Egress()(peaks[w]) == egress;
      assert Both()(peaks[w]) <= total;
    }
    if total != 0 {
      var w :| w in peaks && Both()(peaks[w]) == total;
      assert Ingress()(peaks[w]) <= ingress && Egress()(peaks[w]) <= egress;
    }
  }
}
