/**
 The flush protocol of the traffic meter (internal/api/traffic_meter.go:74-105): snapshot, write,
 discard, with requests finishing between any two of these steps. Each step below is one critical
 section of the meter's mutex, or the write in between.
 */
module TrafficFlush {
  import opened TrafficMeter

  /** The first Finish of one request: its metadata, the clock, and its byte events. */
  datatype Finished = Finished(record: Record, now: nat, events: seq<Event>)

  /** The requests that finished between a snapshot and its discard. */
  datatype Loss = Loss(cutoff: nat, late: seq<Finished>)

  datatype Phase =
    | Idle
    | Snapped(cutoff: nat, rows: seq<Row>, late: seq<Finished>)
    | Persisted(cutoff: nat, rows: seq<Row>, late: seq<Finished>)

  /** `finished` and `discards` only record what happened. */
  datatype State = State(buckets: Buckets, written: seq<Row>, phase: Phase, finished: seq<Finished>,
      discards: seq<Loss>)

  datatype Step =
    | Finish(f: Finished)
    | TakeSnapshot(cutoff: nat, rows: seq<Row>)
    | NothingToWrite
    | WriteFails
    | WriteSucceeds
    | Discard

  const START := State(map[], [], Idle, [], [])

  function File(b: Buckets, f: Finished): Buckets {
    Filed(b, f.record, f.now, f.events)
  }

  function WithLate(p: Phase, f: Finished): Phase {
    match p
    case Idle => Idle
    case Snapped(c, rows, late) => Snapped(c, rows, late + [f])
    case Persisted(c, rows, late) => Persisted(c, rows, late + [f])
  }

  ghost predicate Legal(s: State, step: Step) {
    match step
    case Finish(_) => true
    case TakeSnapshot(cutoff, rows) => s.phase.Idle? && IsSnapshot(s.buckets, cutoff, rows)
    case NothingToWrite => s.phase.Snapped? && s.phase.rows == []
    case WriteFails => s.phase.Snapped? && s.phase.rows != []
    case WriteSucceeds => s.phase.Snapped? && s.phase.rows != []
    case Discard => s.phase.Persisted?
  }

  ghost function Next(s: State, step: Step): State
    requires Legal(s, step)
  {
    match step
    case Finish(f) => s.(buckets := File(s.buckets, f), phase := WithLate(s.phase, f), finished := s.finished + [f])
    case TakeSnapshot(cutoff, rows) => s.(phase := Snapped(cutoff, rows, []))
    case NothingToWrite => s.(phase := Idle)
    case WriteFails => s.(phase := Idle)
    case WriteSucceeds =>
      s.(written := s.written + s.phase.rows, phase := Persisted(s.phase.cutoff, s.phase.rows, s.phase.late))
    case Discard =>
      s.(buckets := Discarded(s.buckets, s.phase.cutoff), phase := Idle,
         discards := s.discards + [Loss(s.phase.cutoff, s.phase.late)])
  }

  /** A request can finish at any time; a snapshot starts a flush, an empty one ends it, a write of rows
      can fail as well as succeed, and only a written one is discarded. */
  lemma LegalSteps(s: State, f: Finished, cutoff: nat, rows: seq<Row>)
    ensures Legal(s, Finish(f))
    ensures Legal(s, TakeSnapshot(cutoff, rows)) <==> s.phase.Idle? && IsSnapshot(s.buckets, cutoff, rows)
    ensures Legal(s, NothingToWrite) <==> s.phase.Snapped? && |s.phase.rows| == 0
    ensures Legal(s, WriteFails) <==> s.phase.Snapped? && |s.phase.rows| > 0
    ensures Legal(s, WriteSucceeds) <==> s.phase.Snapped? && |s.phase.rows| > 0
    ensures Legal(s, Discard) <==> s.phase.Persisted?
  {
    hide IsSnapshot;
  }

  ghost predicate LegalRun(steps: seq<Step>)
    decreases steps, 0
  {
    if steps == [] then true
    else LegalRun(steps[..|steps| - 1]) && Legal(Run(steps[..|steps| - 1]), steps[|steps| - 1])
  }

  ghost function Run(steps: seq<Step>): State
    requires LegalRun(steps)
    decreases steps, 1
  {
    if steps == [] then START else Next(Run(steps[..|steps| - 1]), steps[|steps| - 1])
  }

  // ---- What a key has received, counter by counter ----

  function InMemory(b: Buckets, k: Key, c: Counter): nat {
    if k in b then Pick(c, b[k].requests, b[k].ingress, b[k].egress) else 0
  }

  function RowTally(r: Row, k: Key, c: Counter): nat {
    if r.key == k then Pick(c, r.requests, r.ingress, r.egress) else 0
  }

  function RowsTally(rows: seq<Row>, k: Key, c: Counter): nat {
    if rows == [] then 0 else RowsTally(rows[..|rows| - 1], k, c) + RowTally(rows[|rows| - 1], k, c)
  }

  function EventTally(e: Event, r: Record, k: Key, c: Counter): nat {
    if KeyAt(e.at, r) == k then Pick(c, 0, e.ingress, e.egress) else 0
  }

  function EventsTally(events: seq<Event>, r: Record, k: Key, c: Counter): nat {
    if events == [] then 0 else EventsTally(events[..|events| - 1], r, k, c) + EventTally(events[|events| - 1], r, k, c)
  }

  function RequestTally(now: nat, r: Record, k: Key, c: Counter): nat {
    if KeyAt(now, r) == k then Pick(c, 1, 0, 0) else 0
  }

  /** One request counts in the minute it finishes, its bytes in the minutes they moved. */
  function Share(f: Finished, k: Key, c: Counter): nat {
    var r := Normalized(f.record);
    RequestTally(f.now, r, k, c) + EventsTally(f.events, r, k, c)
  }

  function Shares(fs: seq<Finished>, k: Key, c: Counter): nat {
    if fs == [] then 0 else Shares(fs[..|fs| - 1], k, c) + Share(fs[|fs| - 1], k, c)
  }

  predicate Before(k: Key, cutoff: nat) {
    k.minute < Truncate(cutoff, MINUTE)
  }

  function LossTally(l: Loss, k: Key, c: Counter): nat {
    if Before(k, l.cutoff) then Shares(l.late, k, c) else 0
  }

  function Lost(ls: seq<Loss>, k: Key, c: Counter): nat {
    if ls == [] then 0 else Lost(ls[..|ls| - 1], k, c) + LossTally(ls[|ls| - 1], k, c)
  }

  // ---- Steps ----

  lemma EventAdds(b: Buckets, r: Record, e: Event, k: Key, c: Counter)
    ensures InMemory(FileEvent(b, r, e), k, c) == InMemory(b, k, c) + EventTally(e, r, k, c)
  {
    hide Truncate;
  }

  lemma {:induction false} EventsAdd(b: Buckets, r: Record, events: seq<Event>, k: Key, c: Counter)
    ensures InMemory(FileEvents(b, r, events), k, c) == InMemory(b, k, c) + EventsTally(events, r, k, c)
  {
    hide FileEvent;
    hide EventTally;
    hide InMemory;
    if events == [] {
    } else {
      EventsAdd(b, r, events[..|events| - 1], k, c);
      EventAdds(FileEvents(b, r, events[..|events| - 1]), r, events[|events| - 1], k, c);
    }
  }

  /** A finished request adds exactly its share to every key. */
  lemma FinishAdds(b: Buckets, f: Finished, k: Key, c: Counter)
    ensures InMemory(File(b, f), k, c) == InMemory(b, k, c) + Share(f, k, c)
  {
    hide Normalized;
    hide FileEvents;
    hide EventsTally;
    hide Truncate;
    var r := Normalized(f.record);
    var key := KeyAt(f.now, r);
    EventsAdd(b[key := WithRequest(if key in b then b[key] else EMPTY)], r, f.events, k, c);
  }

  lemma {:induction false} RowsWithout(rows: seq<Row>, k: Key, c: Counter)
    requires forall i :: 0 <= i < |rows| ==> rows[i].key != k
    ensures RowsTally(rows, k, c) == 0
  {
    if rows == [] {
    } else {
      RowsWithout(rows[..|rows| - 1], k, c);
    }
  }

  lemma {:induction false} RowsWith(rows: seq<Row>, i: nat, k: Key, c: Counter)
    requires i < |rows| && rows[i].key == k
    requires forall a, b :: 0 <= a < b < |rows| ==> rows[a].key != rows[b].key
    ensures RowsTally(rows, k, c) == RowTally(rows[i], k, c)
  {
    var front := rows[..|rows| - 1];
    if i == |rows| - 1 {
      assert forall a :: 0 <= a < |front| ==> front[a] == rows[a];
      RowsWithout(front, k, c);
    } else {
      RowsWith(front, i, k, c);
    }
  }

  /** A snapshot holds, for every completed key, exactly what is in memory, in one row. */
  lemma SnapshotTally(b: Buckets, cutoff: nat, rows: seq<Row>, k: Key, c: Counter)
    requires IsSnapshot(b, cutoff, rows)
    ensures RowsTally(rows, k, c) == if Before(k, cutoff) then InMemory(b, k, c) else 0
  {
    hide RowsTally;
    hide IsPeak;
    hide Truncate;
    if k in b && Before(k, cutoff) {
      var i :| 0 <= i < |rows| && rows[i].key == k;
      RowsWith(rows, i, k, c);
    } else {
      RowsWithout(rows, k, c);
    }
  }

  lemma {:induction false} RowsConcat(a: seq<Row>, b: seq<Row>, k: Key, c: Counter)
    ensures RowsTally(a + b, k, c) == RowsTally(a, k, c) + RowsTally(b, k, c)
  {
    hide RowTally;
    if b == [] {
      assert a + b == a;
    } else {
      assert (a + b)[..|a + b| - 1] == a + b[..|b| - 1];
      RowsConcat(a, b[..|b| - 1], k, c);
    }
  }

  // ---- The invariant ----

  /** Per key and counter: written + in memory + lost = finished, plus the rows that are both
      written and still in memory; and before the cutoff, memory is the snapshot plus the late
      shares. */
  predicate Balanced(s: State, k: Key, c: Counter) {
    var total := RowsTally(s.written, k, c) + InMemory(s.buckets, k, c) + Lost(s.discards, k, c);
    match s.phase
    case Idle => total == Shares(s.finished, k, c)
    case Snapped(cutoff, rows, late) =>
      && total == Shares(s.finished, k, c)
      && RowsTally(rows, k, c) + LossTally(Loss(cutoff, late), k, c)
        == (if Before(k, cutoff) then InMemory(s.buckets, k, c) else 0)
    case Persisted(cutoff, rows, late) =>
      && total == Shares(s.finished, k, c) + RowsTally(rows, k, c)
      && RowsTally(rows, k, c) + LossTally(Loss(cutoff, late), k, c)
        == (if Before(k, cutoff) then InMemory(s.buckets, k, c) else 0)
  }

  lemma SharesAppend(fs: seq<Finished>, f: Finished, k: Key, c: Counter)
    ensures Shares(fs + [f], k, c) == Shares(fs, k, c) + Share(f, k, c)
  {
    hide Share;
    assert (fs + [f])[..|fs|] == fs;
  }

  lemma LostAppend(ls: seq<Loss>, l: Loss, k: Key, c: Counter)
    ensures Lost(ls + [l], k, c) == Lost(ls, k, c) + LossTally(l, k, c)
  {
    hide LossTally;
    assert (ls + [l])[..|ls|] == ls;
  }

  lemma DiscardForgets(b: Buckets, cutoff: nat, k: Key, c: Counter)
    ensures InMemory(Discarded(b, cutoff), k, c) == if Before(k, cutoff) then 0 else InMemory(b, k, c)
  {
  }

  lemma StepBalances(s: State, step: Step, k: Key, c: Counter)
    requires Legal(s, step) && Balanced(s, k, c)
    ensures Balanced(Next(s, step), k, c)
  {
    hide RowsTally;
    hide Shares;
    hide Lost;
    hide Share;
    hide IsSnapshot;
    hide InMemory;
    hide Discarded;
    hide File;
    hide Before;
    match step {
      case Finish(f) =>
        FinishAdds(s.buckets, f, k, c);
        SharesAppend(s.finished, f, k, c);
        if !s.phase.Idle? {
          SharesAppend(s.phase.late, f, k, c);
        }
      case TakeSnapshot(cutoff, rows) =>
        SnapshotTally(s.buckets, cutoff, rows, k, c);
        NoShares(k, c);
      case WriteSucceeds =>
        RowsConcat(s.written, s.phase.rows, k, c);
      case Discard =>
        LostAppend(s.discards, Loss(s.phase.cutoff, s.phase.late), k, c);
        DiscardForgets(s.buckets, s.phase.cutoff, k, c);
      case _ =>
    }
  }

  lemma NoShares(k: Key, c: Counter)
    ensures Shares([], k, c) == 0
  {
  }

  /** Over every run of finishes, snapshots, failed and successful writes and discards: per (minute,
      method, route, status class), written rows plus memory plus what discards have dropped equal
      all finished requests, while no flush is under way; and during one, up to the rows in flight. */
  lemma {:induction false} FlushConserves(steps: seq<Step>, k: Key, c: Counter)
    requires LegalRun(steps)
    ensures Balanced(Run(steps), k, c)
  {
    if steps == [] {
    } else {
      hide Balanced;
      FlushConserves(steps[..|steps| - 1], k, c);
      StepBalances(Run(steps[..|steps| - 1]), steps[|steps| - 1], k, c);
    }
  }

  // ---- Peaks over runs ----

  lemma StepIsSound(s: State, step: Step)
    requires Legal(s, step) && SoundMeter(s.buckets)
    ensures SoundMeter(Next(s, step).buckets)
  {
    hide IsSnapshot;
    hide Filed;
    if step.Finish? {
      FiledIsSound(s.buckets, step.f.record, step.f.now, step.f.events);
    }
  }

  /** In every state a run reaches, the windows of every bucket lie in its own minute and add up to
      its totals. */
  lemma {:induction false} RunIsSound(steps: seq<Step>)
    requires LegalRun(steps)
    ensures SoundMeter(Run(steps).buckets)
  {
    if steps == [] {
    } else {
      RunIsSound(steps[..|steps| - 1]);
      hide SoundMeter;
      StepIsSound(Run(steps[..|steps| - 1]), steps[|steps| - 1]);
    }
  }

  function InFlight(p: Phase): seq<Row> {
    if p.Snapped? then p.rows else []
  }

  predicate AllBounded(rows: seq<Row>) {
    forall i :: 0 <= i < |rows| ==> PeakBounded(rows[i])
  }

  /** Every row that a run snapshots or writes obeys the bounds on peaks: each at most its total, each
      total at most twelve peaks, and the common peak between the greater of the two and their sum. */
  lemma {:induction false} RunRowsAreBounded(steps: seq<Step>)
    requires LegalRun(steps)
    ensures AllBounded(Run(steps).written) && AllBounded(InFlight(Run(steps).phase))
  {
    if steps == [] {
    } else {
      var front, step := steps[..|steps| - 1], steps[|steps| - 1];
      RunRowsAreBounded(front);
      hide PeakBounded;
      hide IsSnapshot;
      hide Filed;
      if step.TakeSnapshot? {
        RunIsSound(front);
        PeakBounds(Run(front).buckets, step.cutoff, step.rows);
      }
    }
  }

  // ---- What is lost ----

  predicate LateEvent(e: Event, cutoff: nat) {
    e.ingress + e.egress > 0 && Truncate(e.at, MINUTE) < Truncate(cutoff, MINUTE)
  }

  /** The request has something to file under a minute before the cutoff: its own count, or bytes. */
  predicate TouchesBefore(f: Finished, cutoff: nat) {
    || Truncate(f.now, MINUTE) < Truncate(cutoff, MINUTE)
    || exists e :: e in f.events && LateEvent(e, cutoff)
  }

  /** No request that finished between a snapshot and its discard had anything to file before the
      cutoff. */
  predicate NothingLate(discards: seq<Loss>) {
    forall l :: l in discards ==> forall f :: f in l.late ==> !TouchesBefore(f, l.cutoff)
  }

  lemma {:induction false} EventsTallyZero(events: seq<Event>, r: Record, k: Key, c: Counter)
    ensures EventsTally(events, r, k, c) == 0 <==> forall e :: e in events ==> EventTally(e, r, k, c) == 0
  {
    hide EventTally;
    if events == [] {
    } else {
      var front, last := events[..|events| - 1], events[|events| - 1];
      assert events == front + [last];
      EventsTallyZero(front, r, k, c);
    }
  }

  /** A request with something to file before a cutoff has a share in some key there ... */
  lemma TouchesHasShare(f: Finished, cutoff: nat) returns (k: Key, c: Counter)
    requires TouchesBefore(f, cutoff)
    ensures Before(k, cutoff) && Share(f, k, c) > 0
  {
    hide Normalized;
    hide Truncate;
    var r := Normalized(f.record);
    if Truncate(f.now, MINUTE) < Truncate(cutoff, MINUTE) {
      k, c := KeyAt(f.now, r), Requests;
    } else {
      var e :| e in f.events && LateEvent(e, cutoff);
      k, c := KeyAt(e.at, r), if e.ingress > 0 then IngressBytes else EgressBytes;
      assert EventTally(e, r, k, c) > 0;
      EventsTallyZero(f.events, r, k, c);
    }
    hide EventsTally;
  }

  /** ... and any other request has none. */
  lemma UntouchedHasNoShare(f: Finished, cutoff: nat, k: Key, c: Counter)
    requires !TouchesBefore(f, cutoff) && Before(k, cutoff)
    ensures Share(f, k, c) == 0
  {
    hide Normalized;
    hide Truncate;
    var r := Normalized(f.record);
    forall e | e in f.events
      ensures EventTally(e, r, k, c) == 0
    {
      assert !LateEvent(e, cutoff);
    }
    EventsTallyZero(f.events, r, k, c);
    hide EventsTally;
  }

  lemma {:induction false} SharesZero(fs: seq<Finished>, k: Key, c: Counter)
    ensures Shares(fs, k, c) == 0 <==> forall f :: f in fs ==> Share(f, k, c) == 0
  {
    hide Share;
    if fs == [] {
    } else {
      var front, last := fs[..|fs| - 1], fs[|fs| - 1];
      assert fs == front + [last];
      SharesZero(front, k, c);
    }
  }

  lemma {:induction false} LostZero(ls: seq<Loss>, k: Key, c: Counter)
    ensures Lost(ls, k, c) == 0 <==> forall l :: l in ls ==> LossTally(l, k, c) == 0
  {
    hide LossTally;
    if ls == [] {
    } else {
      var front, last := ls[..|ls| - 1], ls[|ls| - 1];
      assert ls == front + [last];
      LostZero(front, k, c);
    }
  }

  ghost predicate NothingLost(discards: seq<Loss>) {
    forall k, c :: Lost(discards, k, c) == 0
  }

  lemma LostIffLate(discards: seq<Loss>)
    ensures NothingLost(discards) <==> NothingLate(discards)
  {
    hide TouchesBefore;
    hide Lost;
    hide Shares;
    hide Share;
    hide Before;
    if NothingLate(discards) {
      forall k, c
        ensures Lost(discards, k, c) == 0
      {
        LostZero(discards, k, c);
        forall l | l in discards
          ensures LossTally(l, k, c) == 0
        {
          SharesZero(l.late, k, c);
          forall f | f in l.late && Before(k, l.cutoff)
            ensures Share(f, k, c) == 0
          {
            UntouchedHasNoShare(f, l.cutoff, k, c);
          }
        }
      }
    } else {
      var l :| l in discards && exists f :: f in l.late && TouchesBefore(f, l.cutoff);
      var f :| f in l.late && TouchesBefore(f, l.cutoff);
      var k, c := TouchesHasShare(f, l.cutoff);
      LostZero(discards, k, c);
      SharesZero(l.late, k, c);
      assert LossTally(l, k, c) != 0;
    }
  }

  /** Written rows plus memory are all finished requests. */
  ghost predicate Complete(s: State) {
    forall k, c :: RowsTally(s.written, k, c) + InMemory(s.buckets, k, c) == Shares(s.finished, k, c)
  }

  /** Exactly when the flusher loses nothing: between flushes, written rows plus memory equal all
      finished requests for every key and counter, if and only if no request that finished between a
      snapshot and its discard had bytes (or its own count) in a minute before that cutoff. Failed
      writes never matter. */
  lemma FlushLosesNothingIff(steps: seq<Step>)
    requires LegalRun(steps) && Run(steps).phase.Idle?
    ensures Complete(Run(steps)) <==> NothingLate(Run(steps).discards)
  {
    var s := Run(steps);
    forall k, c
      ensures RowsTally(s.written, k, c) + InMemory(s.buckets, k, c) + Lost(s.discards, k, c)
        == Shares(s.finished, k, c)
    {
      FlushConserves(steps, k, c);
    }
    LostIffLate(s.discards);
    hide Run;
    hide LegalRun;
    hide NothingLate;
    CompleteIffNothingLost(s);
  }

  lemma CompleteIffNothingLost(s: State)
    requires forall k, c ::
      RowsTally(s.written, k, c) + InMemory(s.buckets, k, c) + Lost(s.discards, k, c) == Shares(s.finished, k, c)
    ensures Complete(s) <==> NothingLost(s.discards)
  {
    hide RowsTally;
    hide InMemory;
    hide Lost;
    hide Shares;
    if Complete(s) {
      forall k, c
        ensures Lost(s.discards, k, c) == 0
      {
        assert RowsTally(s.written, k, c) + InMemory(s.buckets, k, c) == Shares(s.finished, k, c);
      }
    }
    if NothingLost(s.discards) {
      forall k, c
        ensures RowsTally(s.written, k, c) + InMemory(s.buckets, k, c) == Shares(s.finished, k, c)
      {
        assert Lost(s.discards, k, c) == 0;
      }
    }
  }

  // ---- A run that loses bytes ----

  lemma OneMore(steps: seq<Step>, step: Step)
    requires LegalRun(steps) && Legal(Run(steps), step)
    ensures LegalRun(steps + [step]) && Run(steps + [step]) == Next(Run(steps), step)
  {
    assert (steps + [step])[..|steps|] == steps;
    hide Legal;
    hide Next;
  }

  lemma StartOfRun()
    ensures LegalRun([]) && Run([]) == START
  {
  }

  function Get(): Record { Record("GET", "/", 200) }

  /** A request without a body that finishes in minute 0. */
  function First(): Finished { Finished(Get(), 0, []) }

  /** A streaming response that moved seven bytes in minute 0 and finishes in minute 1. */
  function Stream(): Finished { Finished(Get(), MINUTE, [Event(0, 0, 7)]) }

  function FirstRows(): seq<Row> { [Row(Key(0, Get()), 1, 0, 0, 0, 0, 0)] }

  /** The stream finishes during the write. */
  function StreamingRun(): seq<Step> {
    [Finish(First()), TakeSnapshot(MINUTE, FirstRows()), Finish(Stream()), WriteSucceeds, Discard]
  }

  lemma FirstIsFiled()
    ensures File(map[], First()) == map[Key(0, Get()) := Bucket(1, 0, 0, map[])]
    ensures IsSnapshot(File(map[], First()), MINUTE, FirstRows())
  {
    assert Normalized(Get()) == Get() && Truncate(MINUTE, MINUTE) == MINUTE;
    var key := Key(0, Get());
    assert KeyAt(0, Get()) == key;
    assert File(map[], First()) == map[key := WithRequest(EMPTY)];
    assert FirstRows()[0].key == key;
  }

  lemma StreamIsLate()
    ensures TouchesBefore(Stream(), MINUTE)
  {
    var e := Event(0, 0, 7);
    assert Stream().events[0] == e && LateEvent(e, MINUTE);
  }

  lemma LateIsLate(l: Loss, f: Finished)
    requires f in l.late && TouchesBefore(f, l.cutoff)
    ensures !NothingLate([l])
  {
    hide TouchesBefore;
    assert l in [l];
  }

  /** A run of the protocol that loses bytes: a request is filed and snapshotted, a streaming response
      ends during the write, and the discard drops its seven bytes of minute 0, which no row has. */
  lemma StreamingBytesAreLost()
    ensures LegalRun(StreamingRun())
    ensures Run(StreamingRun()).phase.Idle? && !Complete(Run(StreamingRun()))
  {
    var one, late := [Finish(First())], [Stream()];
    var filed := File(map[], First());
    FirstIsFiled();
    StreamIsLate();
    hide File;
    hide IsSnapshot;
    hide Stream;
    hide First;
    hide TouchesBefore;
    hide Complete;
    hide NothingLate;
    hide LegalRun;
    hide Run;
    StartOfRun();
    OneMore([], Finish(First()));
    var two := [Finish(First())] + [TakeSnapshot(MINUTE, FirstRows())];
    assert [] + [Finish(First())] == one;
    OneMore(one, TakeSnapshot(MINUTE, FirstRows()));
    OneMore(two, Finish(Stream()));
    OneMore(two + [Finish(Stream())], WriteSucceeds);
    OneMore(two + [Finish(Stream())] + [WriteSucceeds], Discard);
    assert StreamingRun() == two + [Finish(Stream())] + [WriteSucceeds] + [Discard];
    var l := Loss(MINUTE, [] + [Stream()]);
    assert Run(StreamingRun()).discards == [] + [l];
    assert [] + [l] == [l] && Stream() in l.late;
    LateIsLate(l, Stream());
    FlushLosesNothingIff(StreamingRun());
  }
}
