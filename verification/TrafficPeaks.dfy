/**
 What the five-second windows of the traffic meter hold, event by event, and what the peaks of the
 written rows therefore are (internal/api/traffic_meter.go:123-264).
 */
module TrafficPeaks {
  import opened Sums
  import opened TrafficMeter
  import opened TrafficFlush

  // ---- Minutes and windows ----

  lemma OneMultiple(a: nat, b: nat, at: nat, unit: nat)
    requires unit in {WINDOW, MINUTE} && a % unit == 0 && b % unit == 0
    requires a <= at < a + unit && b <= at < b + unit
    ensures a == b
  {
    var p, q := a / unit, b / unit;
    assert a == unit * p && b == unit * q;
  }

  lemma TruncateIs(at: nat, unit: nat)
    requires unit in {WINDOW, MINUTE}
    ensures Truncate(at, unit) % unit == 0 && Truncate(at, unit) <= at < Truncate(at, unit) + unit
  {
    Remainder(unit * (at / unit), unit, at / unit, 0);
  }

  /** The five seconds at `w`, which is a multiple of five seconds. */
  predicate InWindow(at: nat, w: nat) {
    w % WINDOW == 0 && w <= at < w + WINDOW
  }

  predicate InMinute(at: nat, minute: nat) {
    minute % MINUTE == 0 && minute <= at < minute + MINUTE
  }

  lemma WindowOfMoment(at: nat, w: nat)
    ensures Truncate(at, WINDOW) == w <==> InWindow(at, w)
  {
    TruncateIs(at, WINDOW);
    if InWindow(at, w) {
      OneMultiple(Truncate(at, WINDOW), w, at, WINDOW);
    }
  }

  /** An event is filed under the minute it happens in. */
  lemma KeyOfMoment(at: nat, r: Record, k: Key)
    ensures KeyAt(at, r) == k <==> k.record == r && InMinute(at, k.minute)
  {
    TruncateIs(at, MINUTE);
    if InMinute(at, k.minute) {
      OneMultiple(Truncate(at, MINUTE), k.minute, at, MINUTE);
    }
  }

  /** A minute is completed when all of it is before the cutoff. */
  lemma CompletedMinute(minute: nat, cutoff: nat)
    requires minute % MINUTE == 0
    ensures minute < Truncate(cutoff, MINUTE) <==> minute + MINUTE <= cutoff
  {
    TruncateIs(cutoff, MINUTE);
    var q, p := minute / MINUTE, Truncate(cutoff, MINUTE) / MINUTE;
    assert minute == MINUTE * q && Truncate(cutoff, MINUTE) == MINUTE * p;
  }

  // ---- What a window holds ----

  const NOTHING := Window(0, 0)

  function Plus(a: Window, b: Window): Window {
    Window(a.ingress + b.ingress, a.egress + b.egress)
  }

  function WindowAt(b: Buckets, k: Key, w: nat): Window {
    if k in b then GetOr(b[k].peaks, w, NOTHING) else NOTHING
  }

  /** The bytes of an event, if it is filed under the key and happens in the window. */
  function BytesOf(e: Event, r: Record, k: Key, w: nat): Window {
    if k.record == r && InMinute(e.at, k.minute) && InWindow(e.at, w) then Window(e.ingress, e.egress) else NOTHING
  }

  function BytesOfAll(events: seq<Event>, r: Record, k: Key, w: nat): Window {
    if events == [] then NOTHING
    else Plus(BytesOfAll(events[..|events| - 1], r, k, w), BytesOf(events[|events| - 1], r, k, w))
  }

  /** What a finished request has moved in a window. */
  function Moved(f: Finished, k: Key, w: nat): Window {
    BytesOfAll(f.events, Normalized(f.record), k, w)
  }

  function MovedByAll(fs: seq<Finished>, k: Key, w: nat): Window {
    if fs == [] then NOTHING else Plus(MovedByAll(fs[..|fs| - 1], k, w), Moved(fs[|fs| - 1], k, w))
  }

  lemma BucketWindow(b: Bucket, e: Event, w: nat)
    ensures GetOr(WithEvent(b, e).peaks, w, NOTHING)
         == if InWindow(e.at, w) then Plus(GetOr(b.peaks, w, NOTHING), Window(e.ingress, e.egress))
            else GetOr(b.peaks, w, NOTHING)
  {
    WindowOfMoment(e.at, w);
    hide Truncate;
    hide InWindow;
  }

  lemma WindowOfBucket(b: Buckets, k: Key, w: nat)
    ensures WindowAt(b, k, w) == GetOr(GetOr(b, k, EMPTY).peaks, w, NOTHING)
  {
  }

  lemma FiledBucket(b: Buckets, r: Record, e: Event, k: Key)
    ensures GetOr(FileEvent(b, r, e), k, EMPTY)
         == if k == KeyAt(e.at, r) then WithEvent(GetOr(b, k, EMPTY), e) else GetOr(b, k, EMPTY)
  {
    hide WithEvent;
    hide KeyAt;
  }

  lemma EventWindow(b: Buckets, r: Record, e: Event, k: Key, w: nat)
    ensures WindowAt(FileEvent(b, r, e), k, w) == Plus(WindowAt(b, k, w), BytesOf(e, r, k, w))
  {
    hide GetOr;
    hide WindowAt;
    hide FileEvent;
    hide WithEvent;
    hide KeyAt;
    hide InMinute;
    hide InWindow;
    KeyOfMoment(e.at, r, k);
    WindowOfBucket(b, k, w);
    WindowOfBucket(FileEvent(b, r, e), k, w);
    FiledBucket(b, r, e, k);
    BucketWindow(GetOr(b, k, EMPTY), e, w);
  }

  lemma {:induction false} EventsWindow(b: Buckets, r: Record, events: seq<Event>, k: Key, w: nat)
    ensures WindowAt(FileEvents(b, r, events), k, w) == Plus(WindowAt(b, k, w), BytesOfAll(events, r, k, w))
  {
    hide FileEvent;
    hide BytesOf;
    hide WindowAt;
    if events == [] {
    } else {
      EventsWindow(b, r, events[..|events| - 1], k, w);
      EventWindow(FileEvents(b, r, events[..|events| - 1]), r, events[|events| - 1], k, w);
    }
  }

  /** After a Finish the window of every key and every five seconds holds what it held, plus the bytes of
      exactly the request's events that are filed under the key and happened in those five seconds. */
  lemma FinishFillsWindows(b: Buckets, f: Finished, k: Key, w: nat)
    ensures WindowAt(File(b, f), k, w) == Plus(WindowAt(b, k, w), Moved(f, k, w))
  {
    hide Normalized;
    hide FileEvents;
    hide BytesOfAll;
    hide Truncate;
    var r := Normalized(f.record);
    var key := KeyAt(f.now, r);
    EventsWindow(b[key := WithRequest(GetOr(b, key, EMPTY))], r, f.events, k, w);
  }

  /** Metadata that is missing is filled in, and no other is touched. */
  lemma MetadataIsFilled(r: Record)
    ensures var n := Normalized(r);
      && (n.method_ == r.method_ != "" || (r.method_ == "" && n.method_ == "UNKNOWN"))
      && (n.route == r.route != "" || (r.route == "" && n.route == "unmatched"))
      && (n.statusClass == r.statusClass != 0 || (r.statusClass == 0 && n.statusClass == 500))
  {
  }

  // ---- Over runs ----

  /** The requests that finished since the last discard that reached the key. */
  ghost function KeptFor(steps: seq<Step>, k: Key): seq<Finished>
    requires LegalRun(steps)
  {
    if steps == [] then []
    else
      var front, step := steps[..|steps| - 1], steps[|steps| - 1];
      match step
      case Finish(f) => KeptFor(front, k) + [f]
      case Discard => if k.minute + MINUTE <= Run(front).phase.cutoff then [] else KeptFor(front, k)
      case _ => KeptFor(front, k)
  }

  lemma MovedAppend(fs: seq<Finished>, f: Finished, k: Key, w: nat)
    ensures MovedByAll(fs + [f], k, w) == Plus(MovedByAll(fs, k, w), Moved(f, k, w))
  {
    hide Moved;
    assert (fs + [f])[..|fs|] == fs;
  }

  lemma DiscardDropsWindows(b: Buckets, cutoff: nat, k: Key, w: nat)
    requires k.minute % MINUTE == 0
    ensures WindowAt(Discarded(b, cutoff), k, w) == if k.minute + MINUTE <= cutoff then NOTHING else WindowAt(b, k, w)
  {
    CompletedMinute(k.minute, cutoff);
    hide Truncate;
  }

  lemma KeptStep(steps: seq<Step>, step: Step, k: Key)
    requires LegalRun(steps) && LegalRun(steps + [step]) && Legal(Run(steps), step)
    ensures KeptFor(steps + [step], k) ==
      if step.Finish? then KeptFor(steps, k) + [step.f]
      else if step.Discard? && k.minute + MINUTE <= Run(steps).phase.cutoff then []
      else KeptFor(steps, k)
  {
    hide Run;
    hide LegalRun;
    hide IsSnapshot;
    assert (steps + [step])[..|steps|] == steps;
  }

  lemma StepFillsWindows(steps: seq<Step>, step: Step, k: Key, w: nat)
    requires LegalRun(steps) && Legal(Run(steps), step) && k.minute % MINUTE == 0
    requires LegalRun(steps + [step])
    requires WindowAt(Run(steps).buckets, k, w) == MovedByAll(KeptFor(steps, k), k, w)
    ensures WindowAt(Next(Run(steps), step).buckets, k, w) == MovedByAll(KeptFor(steps + [step], k), k, w)
  {
    hide Run;
    hide LegalRun;
    hide WindowAt;
    hide File;
    hide Discarded;
    hide Moved;
    hide IsSnapshot;
    hide KeptFor;
    KeptStep(steps, step, k);
    match step {
      case Finish(f) =>
        FinishFillsWindows(Run(steps).buckets, f, k, w);
        MovedAppend(KeptFor(steps, k), f, k, w);
      case Discard =>
        DiscardDropsWindows(Run(steps).buckets, Run(steps).phase.cutoff, k, w);
      case _ =>
    }
  }

  /** Over every run: each window in memory holds exactly the bytes that moved in its five seconds, of
      the requests that finished since the last discard that reached its key. */
  lemma {:induction false} RunFillsWindows(steps: seq<Step>, k: Key, w: nat)
    requires LegalRun(steps) && k.minute % MINUTE == 0
    ensures WindowAt(Run(steps).buckets, k, w) == MovedByAll(KeptFor(steps, k), k, w)
  {
    if steps == [] {
    } else {
      var front, step := steps[..|steps| - 1], steps[|steps| - 1];
      assert steps == front + [step];
      RunFillsWindows(front, k, w);
      StepFillsWindows(front, step, k, w);
      hide WindowAt;
      hide MovedByAll;
      hide Next;
      hide Legal;
    }
  }

  // ---- Peaks ----

  /** `p` is the greatest of five-second sums, and attained, or 0. */
  ghost predicate IsGreatest(fs: seq<Finished>, k: Key, f: Window -> nat, p: nat) {
    && (forall w :: f(MovedByAll(fs, k, w)) <= p)
    && (p == 0 || exists w :: f(MovedByAll(fs, k, w)) == p)
  }

  lemma PeakIsGreatest(fs: seq<Finished>, k: Key, peaks: map<nat, Window>, f: Window -> nat, p: nat)
    requires forall w: nat :: MovedByAll(fs, k, w) == GetOr(peaks, w, NOTHING)
    requires IsPeak(peaks, f, p) && f(NOTHING) == 0
    ensures IsGreatest(fs, k, f, p)
  {
    hide MovedByAll;
    forall w: nat
      ensures f(MovedByAll(fs, k, w)) <= p
    {
      assert MovedByAll(fs, k, w) == GetOr(peaks, w, NOTHING);
    }
    if p != 0 {
      var w :| w in peaks && f(peaks[w]) == p;
      assert MovedByAll(fs, k, w) == GetOr(peaks, w, NOTHING);
    }
  }

  /** The peaks of a row are the greatest five-second sums, of bytes in, of bytes out and of both. */
  ghost predicate HasGreatest(row: Row, fs: seq<Finished>) {
    && IsGreatest(fs, row.key, Ingress(), row.peakIngress)
    && IsGreatest(fs, row.key, Egress(), row.peakEgress)
    && IsGreatest(fs, row.key, Both(), row.peakTotal)
  }

  lemma BucketHasGreatest(b: Buckets, fs: seq<Finished>, row: Row)
    requires row.key in b && IsRow(row, row.key, b[row.key])
    requires forall w: nat :: WindowAt(b, row.key, w) == MovedByAll(fs, row.key, w)
    ensures HasGreatest(row, fs)
  {
    hide MovedByAll;
    hide IsPeak;
    hide IsGreatest;
    var peaks := b[row.key].peaks;
    forall w: nat
      ensures MovedByAll(fs, row.key, w) == GetOr(peaks, w, NOTHING)
    {
      assert WindowAt(b, row.key, w) == MovedByAll(fs, row.key, w);
    }
    PeakIsGreatest(fs, row.key, peaks, Ingress(), row.peakIngress);
    PeakIsGreatest(fs, row.key, peaks, Egress(), row.peakEgress);
    PeakIsGreatest(fs, row.key, peaks, Both(), row.peakTotal);
  }

  lemma RowOfSnapshot(b: Buckets, cutoff: nat, rows: seq<Row>, i: nat)
    requires IsSnapshot(b, cutoff, rows) && i < |rows|
    ensures rows[i].key in b && IsRow(rows[i], rows[i].key, b[rows[i].key])
    ensures rows[i].key.minute < Truncate(cutoff, MINUTE)
  {
  }

  lemma KeyIsWhole(steps: seq<Step>, k: Key)
    requires LegalRun(steps) && k in Run(steps).buckets
    ensures k.minute % MINUTE == 0
  {
    RunIsSound(steps);
    hide Run;
    hide LegalRun;
    assert SoundBucket(k, Run(steps).buckets[k]);
  }

  /** The row of a snapshot: a completed minute, and peaks that are the greatest five-second sums of the
      requests that finished since the last discard that reached its key. */
  lemma SnapshotHasGreatest(steps: seq<Step>, cutoff: nat, rows: seq<Row>, i: nat)
    requires LegalRun(steps) && Legal(Run(steps), TakeSnapshot(cutoff, rows)) && i < |rows|
    ensures rows[i].key.minute + MINUTE <= cutoff && HasGreatest(rows[i], KeptFor(steps, rows[i].key))
  {
    var b, row := Run(steps).buckets, rows[i];
    RowOfSnapshot(b, cutoff, rows, i);
    hide IsSnapshot;
    hide IsRow;
    KeyIsWhole(steps, row.key);
    CompletedMinute(row.key.minute, cutoff);
    forall w: nat
      ensures WindowAt(b, row.key, w) == MovedByAll(KeptFor(steps, row.key), row.key, w)
    {
      RunFillsWindows(steps, row.key, w);
    }
    hide HasGreatest;
    hide WindowAt;
    hide MovedByAll;
    hide Run;
    hide LegalRun;
    BucketHasGreatest(b, KeptFor(steps, row.key), row);
  }

  /** The row was taken by a snapshot of the run. */
  ghost predicate WasTaken(steps: seq<Step>, row: Row) {
    exists n :: 0 <= n < |steps| && steps[n].TakeSnapshot? && row in steps[n].rows
  }

  lemma TakenBefore(front: seq<Step>, step: Step, row: Row)
    requires WasTaken(front, row)
    ensures WasTaken(front + [step], row)
  {
    var n :| 0 <= n < |front| && front[n].TakeSnapshot? && row in front[n].rows;
    assert (front + [step])[n] == front[n];
  }

  lemma TakenNow(front: seq<Step>, step: Step, row: Row)
    requires step.TakeSnapshot? && row in step.rows
    ensures WasTaken(front + [step], row)
  {
    assert (front + [step])[|front|] == step;
  }

  /** A row that is written or in flight. */
  predicate IsOut(s: State, row: Row) {
    row in s.written || row in InFlight(s.phase)
  }

  lemma StepRows(s: State, step: Step, row: Row)
    requires Legal(s, step) && IsOut(Next(s, step), row)
    ensures (step.TakeSnapshot? && row in step.rows) || IsOut(s, row)
  {
    hide IsSnapshot;
    hide File;
    hide Discarded;
  }

  lemma RunStep(front: seq<Step>, step: Step)
    requires LegalRun(front + [step])
    ensures LegalRun(front) && Legal(Run(front), step) && Run(front + [step]) == Next(Run(front), step)
  {
    hide Legal;
    hide Next;
    assert (front + [step])[..|front|] == front;
  }

  lemma NothingIsOut(row: Row)
    ensures LegalRun([]) && !IsOut(Run([]), row)
  {
  }

  lemma {:induction false} RowsWereTaken(steps: seq<Step>, row: Row)
    requires LegalRun(steps) && IsOut(Run(steps), row)
    ensures WasTaken(steps, row)
  {
    hide *;
    if steps == [] {
      NothingIsOut(row);
    } else {
      var front, step := steps[..|steps| - 1], steps[|steps| - 1];
      assert steps == front + [step];
      RunStep(front, step);
      StepRows(Run(front), step, row);
      if step.TakeSnapshot? && row in step.rows {
        TakenNow(front, step, row);
      } else {
        RowsWereTaken(front, row);
        TakenBefore(front, step, row);
      }
    }
  }

  lemma {:induction false} LegalFront(steps: seq<Step>, n: nat)
    requires LegalRun(steps) && n < |steps|
    ensures LegalRun(steps[..n]) && Legal(Run(steps[..n]), steps[n])
  {
    hide Legal;
    if n == |steps| - 1 {
    } else {
      LegalFront(steps[..|steps| - 1], n);
      assert steps[..|steps| - 1][..n] == steps[..n];
    }
  }

  /** Over every run: the peaks of every written row are the greatest sums, over any five seconds of its
      minute, of the bytes of the requests that had finished when its snapshot was taken and since the
      last discard that reached its key. `n` is when it was taken. */
  lemma WrittenPeaks(steps: seq<Step>, row: Row) returns (n: nat)
    requires LegalRun(steps) && row in Run(steps).written
    ensures n < |steps| && steps[n].TakeSnapshot? && row in steps[n].rows && LegalRun(steps[..n])
    ensures HasGreatest(row, KeptFor(steps[..n], row.key))
  {
    RowsWereTaken(steps, row);
    n :| 0 <= n < |steps| && steps[n].TakeSnapshot? && row in steps[n].rows;
    LegalFront(steps, n);
    hide Run;
    hide LegalRun;
    hide HasGreatest;
    hide Legal;
    var i :| 0 <= i < |steps[n].rows| && steps[n].rows[i] == row;
    SnapshotHasGreatest(steps[..n], steps[n].cutoff, steps[n].rows, i);
  }
}
