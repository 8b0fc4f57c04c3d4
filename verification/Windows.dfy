/**
 The sliding windows and the as-of join of the macro sync
 (cmd/us-market-macro-fmp-sync/main.go:723-774, 908-945, 1002-1011), each a loop with a moving
 window or index, proved against what it stands for.
 */
module Windows {

  import opened Basics
  import opened Sums

  /** The last `n` elements, or all of them if there are fewer. */
  function Last<T>(s: seq<T>, n: nat): seq<T> {
    if |s| <= n then s else s[|s| - n..]
  }

  /** Appending to a window and dropping its head when it is too long keeps the last `n`. */
  lemma Slide<T>(s: seq<T>, x: T, n: nat)
    ensures var grown := Last(s, n) + [x];
      Last(s + [x], n) == if |grown| > n then grown[1..] else grown
  {
  }

  /** The numbers themselves, to be summed. */
  function Itself(): real -> real { (x: real) => x }

  // ---- Trailing twelve months ----

  datatype Quarter = Quarter(knownAt: int, netIncome: real)

  predicate ByKnownAt(records: seq<Quarter>) {
    forall i, j :: 0 <= i < j < |records| ==> records[i].knownAt <= records[j].knownAt
  }

  /** The incomes that are known at a time, in order. */
  function Known(records: seq<Quarter>, asOf: int): seq<real> {
    if records == [] then []
    else
      var front, r := Known(records[..|records| - 1], asOf), records[|records| - 1];
      if r.knownAt <= asOf then front + [r.netIncome] else front
  }

  /** Four non-zero quarters with a non-zero sum, or nothing. */
  function FourQuarters(window: seq<real>): Option<real> {
    if |window| < 4 || 0.0 in window || Sum(window, Itself()) == 0.0 then None else Some(Sum(window, Itself()))
  }

  function Ttm(records: seq<Quarter>, asOf: int): Option<real> {
    FourQuarters(Last(Known(records, asOf), 4))
  }

  lemma {:induction false} KnownPrefix(records: seq<Quarter>, asOf: int, n: nat)
    requires n <= |records|
    requires forall i :: 0 <= i < n ==> records[i].knownAt <= asOf
    requires forall i :: n <= i < |records| ==> records[i].knownAt > asOf
    ensures Known(records, asOf) == Known(records[..n], asOf)
  {
    if n < |records| {
      var last := |records| - 1;
      KnownPrefix(records[..last], asOf, n);
      assert records[..last][..n] == records[..n];
    } else {
      assert records[..n] == records;
    }
  }

  method LatestTtmNetIncome(records: seq<Quarter>, asOf: int) returns (total: real, ok: bool)
    requires ByKnownAt(records)
    ensures (if ok then Some(total) else None) == Ttm(records, asOf)
    ensures !ok ==> total == 0.0
  {
    var window: seq<real> := [];
    var n := 0;
    while n < |records|
      invariant 0 <= n <= |records|
      invariant forall i :: 0 <= i < n ==> records[i].knownAt <= asOf
      invariant window == Last(Known(records[..n], asOf), 4)
    {
      if records[n].knownAt > asOf {
        break;
      }
      assert records[..n + 1][..n] == records[..n];
      Slide(Known(records[..n], asOf), records[n].netIncome, 4);
      window := window + [records[n].netIncome];
      if |window| > 4 {
        window := window[1..];
      }
      n := n + 1;
    }
    KnownPrefix(records, asOf, n);
    if |window| < 4 {
      return 0.0, false;
    }
    total := 0.0;
    for i := 0 to |window|
      invariant total == Sum(window[..i], Itself()) && 0.0 !in window[..i]
    {
      assert window[..i + 1][..i] == window[..i] && window[..i + 1] == window[..i] + [window[i]];
      if window[i] == 0.0 {
        return 0.0, false;
      }
      total := total + window[i];
    }
    assert window[..|window|] == window;
    if total == 0.0 {
      return 0.0, false;
    }
    return total, true;
  }

  /** The sum is of the last four known records and no other: it is free of look-ahead, and older
      records do not show. */
  lemma TtmIgnoresTheRest(earlier: seq<Quarter>, four: seq<Quarter>, later: seq<Quarter>, asOf: int)
    requires |four| == 4 && (forall r :: r in four ==> r.knownAt <= asOf)
      && (forall r :: r in later ==> r.knownAt > asOf)
    requires forall r :: r in earlier ==> r.knownAt <= asOf
    ensures Ttm(earlier + four + later, asOf) == Ttm(four, asOf)
  {
    KnownOf(earlier + four, later, asOf);
    KnownOf(earlier, four, asOf);
    AllKnown(four, asOf);
    NoneKnown(later, asOf);
    var before, shown := Known(earlier, asOf), Known(four, asOf);
    assert before + shown + [] == before + shown;
    assert Last(before + shown, 4) == shown == Last(shown, 4);
  }

  lemma {:induction false} KnownOf(a: seq<Quarter>, b: seq<Quarter>, asOf: int)
    ensures Known(a + b, asOf) == Known(a, asOf) + Known(b, asOf)
  {
    if b == [] {
      assert a + b == a;
    } else {
      assert (a + b)[..|a + b| - 1] == a + b[..|b| - 1];
      KnownOf(a, b[..|b| - 1], asOf);
    }
  }

  lemma {:induction false} AllKnown(records: seq<Quarter>, asOf: int)
    requires forall r :: r in records ==> r.knownAt <= asOf
    ensures |Known(records, asOf)| == |records|
  {
    if records == [] {
    } else {
      AllKnown(records[..|records| - 1], asOf);
    }
  }

  lemma {:induction false} NoneKnown(records: seq<Quarter>, asOf: int)
    requires forall r :: r in records ==> r.knownAt > asOf
    ensures Known(records, asOf) == []
  {
    if records == [] {
    } else {
      NoneKnown(records[..|records| - 1], asOf);
    }
  }

  // ---- The rolling window ----

  datatype Point = Point(price: real, realEarnings: real, rate: real, pe10: real, excessYield: real)

  function Earnings(points: seq<Point>): seq<real> {
    seq(|points|, i requires 0 <= i < |points| => points[i].realEarnings)
  }

  function Average(window: seq<real>): real {
    if window == [] then 0.0 else Sum(window, Itself()) / |window| as real
  }

  /** The point with its ratio to the average earnings of a window, if the window has enough. */
  function Ratio(p: Point, window: seq<real>, minimum: int): Point {
    if |window| < minimum || Average(window) <= 0.0 then p
    else
      var pe10 := p.price / Average(window);
      p.(pe10 := pe10, excessYield := if pe10 > 0.0 then 100.0 / pe10 - p.rate else p.excessYield)
  }

  /** The window of a point is the earnings of the last `rolling` points up to it. */
  function Rated(points: seq<Point>, i: nat, rolling: nat, minimum: int): Point
    requires i < |points|
  {
    Ratio(points[i], Last(Earnings(points[..i + 1]), rolling), minimum)
  }

  method AverageOf(values: seq<real>) returns (average: real)
    ensures average == Average(values)
  {
    if |values| == 0 {
      return 0.0;
    }
    var total := 0.0;
    for i := 0 to |values|
      invariant total == Sum(values[..i], Itself())
    {
      assert values[..i + 1][..i] == values[..i];
      total := total + values[i];
    }
    assert values[..|values|] == values;
    return total / |values| as real;
  }

  method RateOne(p: Point, window: seq<real>, minimumMonths: int) returns (q: Point)
    ensures q == Ratio(p, window, minimumMonths)
  {
    q := p;
    if |window| >= minimumMonths {
      var average := AverageOf(window);
      if average > 0.0 {
        q := q.(pe10 := p.price / average);
        if q.pe10 > 0.0 {
          q := q.(excessYield := 100.0 / q.pe10 - p.rate);
        }
      }
    }
  }

  lemma NoPoints(points: seq<Point>, rolling: nat)
    ensures Last(Earnings(points[..0]), rolling) == []
  {
  }

  lemma EarningsStep(points: seq<Point>, i: nat, rolling: nat)
    requires i < |points|
    ensures var grown := Last(Earnings(points[..i]), rolling) + [points[i].realEarnings];
      Last(Earnings(points[..i + 1]), rolling) == if |grown| > rolling then grown[1..] else grown
  {
    Slide(Earnings(points[..i]), points[i].realEarnings, rolling);
    assert Earnings(points[..i + 1]) == Earnings(points[..i]) + [points[i].realEarnings];
  }

  /** Fill in the ratios in place. */
  method RatePoints(points: array<Point>, rollingMonths: nat, minimumMonths: int)
    modifies points
    ensures forall i :: 0 <= i < points.Length ==> points[i] == Rated(old(points[..]), i, rollingMonths, minimumMonths)
  {
    hide Last;
    hide Earnings;
    hide Ratio;
    ghost var input := points[..];
    NoPoints(input, rollingMonths);
    var window: seq<real> := [];
    for index := 0 to points.Length
      invariant window == Last(Earnings(input[..index]), rollingMonths)
      invariant forall i :: 0 <= i < index ==> points[i] == Rated(input, i, rollingMonths, minimumMonths)
      invariant forall i :: index <= i < points.Length ==> points[i] == input[i]
    {
      EarningsStep(input, index, rollingMonths);
      window := window + [points[index].realEarnings];
      if |window| > rollingMonths {
        window := window[1..];
      }
      points[index] := RateOne(points[index], window, minimumMonths);
    }
  }

  /** The window of a point depends on nothing after it: points computed on a prefix are the same. */
  lemma RatingIsCausal(points: seq<Point>, n: nat, i: nat, rolling: nat, minimum: int)
    requires i < n <= |points|
    ensures Rated(points[..n], i, rolling, minimum) == Rated(points, i, rolling, minimum)
  {
    assert points[..n][..i + 1] == points[..i + 1];
  }

  // ---- The as-of join ----

  datatype Anchor = Anchor(knownAt: int, pe10: real, value: real, month: int)

  datatype Bar = Bar(at: int, close: real)

  datatype LivePoint = LivePoint(at: int, price: real, pe: real, month: int)

  predicate AnchorsByKnownAt(anchors: seq<Anchor>) {
    forall i, j :: 0 <= i < j < |anchors| ==> anchors[i].knownAt <= anchors[j].knownAt
  }

  predicate BarsByTime(bars: seq<Bar>) {
    forall i, j :: 0 <= i < j < |bars| ==> bars[i].at <= bars[j].at
  }

  /** The last anchor known at or before a time. */
  function LastKnown(anchors: seq<Anchor>, at: int): Option<Anchor> {
    if anchors == [] then None
    else if anchors[|anchors| - 1].knownAt <= at then Some(anchors[|anchors| - 1])
    else LastKnown(anchors[..|anchors| - 1], at)
  }

  /** The ratio of an anchor, scaled by the price since. */
  function Scaled(a: Anchor, bar: Bar): LivePoint
    requires a.value > 0.0
  {
    LivePoint(bar.at, bar.close, a.pe10 * (bar.close / a.value), a.month)
  }

  function LiveAt(anchors: seq<Anchor>, bar: Bar): seq<LivePoint> {
    var known := LastKnown(anchors, bar.at);
    if known.None? || known.value.value <= 0.0 then [] else [Scaled(known.value, bar)]
  }

  function Live(anchors: seq<Anchor>, bars: seq<Bar>): seq<LivePoint> {
    if bars == [] then [] else Live(anchors, bars[..|bars| - 1]) + LiveAt(anchors, bars[|bars| - 1])
  }

  /** Where the index of the join stands for a time: on the last known anchor, or on the first
      anchor if none is known yet. */
  predicate PointsAt(anchors: seq<Anchor>, index: nat, at: int)
    requires index < |anchors|
  {
    && (index > 0 ==> anchors[index].knownAt <= at)
    && (index + 1 < |anchors| ==> anchors[index + 1].knownAt > at)
  }

  lemma {:induction false} IndexIsLastKnown(anchors: seq<Anchor>, index: nat, at: int)
    requires AnchorsByKnownAt(anchors) && index < |anchors| && PointsAt(anchors, index, at)
    ensures LastKnown(anchors, at) == if anchors[index].knownAt <= at then Some(anchors[index]) else None
  {
    var last := |anchors| - 1;
    if index < last {
      assert anchors[last].knownAt > at;
      IndexIsLastKnown(anchors[..last], index, at);
    } else if anchors[index].knownAt > at {
      assert index == 0 && anchors[..last] == [];
    }
  }

  lemma LiveStep(anchors: seq<Anchor>, bars: seq<Bar>, i: nat)
    requires i < |bars|
    ensures Live(anchors, bars[..i + 1]) == Live(anchors, bars[..i]) + LiveAt(anchors, bars[i])
  {
    assert bars[..i + 1][..i] == bars[..i];
  }

  lemma NoBars(anchors: seq<Anchor>)
    ensures Live(anchors, []) == []
  {
  }

  method BuildDailyLiveSeries(anchors: seq<Anchor>, bars: seq<Bar>) returns (out: seq<LivePoint>)
    requires AnchorsByKnownAt(anchors) && BarsByTime(bars)
    ensures out == Live(anchors, bars)
  {
    out := [];
    if |anchors| == 0 {
      NoAnchors(bars);
      return;
    }
    NoBars(anchors);
    hide Live;
    var anchorIndex := 0;
    for i := 0 to |bars|
      invariant 0 <= anchorIndex < |anchors|
      invariant anchorIndex > 0 ==> i > 0 && anchors[anchorIndex].knownAt <= bars[i - 1].at
      invariant out == Live(anchors, bars[..i])
    {
      var bar := bars[i];
      while anchorIndex + 1 < |anchors| && anchors[anchorIndex + 1].knownAt <= bar.at
        invariant 0 <= anchorIndex < |anchors|
        invariant anchorIndex > 0 ==> anchors[anchorIndex].knownAt <= bar.at
      {
        anchorIndex := anchorIndex + 1;
      }
      var current := anchors[anchorIndex];
      assert PointsAt(anchors, anchorIndex, bar.at);
      IndexIsLastKnown(anchors, anchorIndex, bar.at);
      LiveStep(anchors, bars, i);
      if current.knownAt > bar.at || current.value <= 0.0 {
        assert out + LiveAt(anchors, bar) == out;
        continue;
      }
      var peLive := current.pe10 * (bar.close / current.value);
      out := out + [LivePoint(bar.at, bar.close, peLive, current.month)];
      assert LivePoint(bar.at, bar.close, peLive, current.month) == Scaled(current, bar);
    }
    assert bars[..|bars|] == bars;
  }

  lemma {:induction false} NoAnchors(bars: seq<Bar>)
    ensures Live([], bars) == []
  {
    if bars == [] {
    } else {
      NoAnchors(bars[..|bars| - 1]);
    }
  }

  // ---- What the numbers mean ----

  /** With at least four known records the sum is that of the last four, unless one of them is zero or
      they cancel. */
  lemma TtmIs(earlier: seq<Quarter>, a: Quarter, b: Quarter, c: Quarter, d: Quarter, later: seq<Quarter>, asOf: int)
    requires forall r :: r in earlier + [a, b, c, d] ==> r.knownAt <= asOf
    requires forall r :: r in later ==> r.knownAt > asOf
    ensures var total := a.netIncome + b.netIncome + c.netIncome + d.netIncome;
      Ttm(earlier + [a, b, c, d] + later, asOf) ==
        if a.netIncome == 0.0 || b.netIncome == 0.0 || c.netIncome == 0.0 || d.netIncome == 0.0 || total == 0.0
        then None else Some(total)
  {
    var four := [a, b, c, d];
    forall r | r in four
      ensures r.knownAt <= asOf
    {
      assert r in earlier + four;
    }
    TtmIgnoresTheRest(earlier, four, later, asOf);
    KnownFour(a, b, c, d, asOf);
    SumOfFour(a.netIncome, b.netIncome, c.netIncome, d.netIncome);
    hide Known;
    hide Sum;
  }

  lemma KnownFour(a: Quarter, b: Quarter, c: Quarter, d: Quarter, asOf: int)
    requires a.knownAt <= asOf && b.knownAt <= asOf && c.knownAt <= asOf && d.knownAt <= asOf
    ensures Known([a, b, c, d], asOf) == [a.netIncome, b.netIncome, c.netIncome, d.netIncome]
  {
    assert [a, b, c, d][..3] == [a, b, c] && [a, b, c][..2] == [a, b] && [a, b][..1] == [a] && [a][..0] == [];
    assert Known([a], asOf) == [a.netIncome];
    assert Known([a, b], asOf) == [a.netIncome, b.netIncome];
    assert Known([a, b, c], asOf) == [a.netIncome, b.netIncome, c.netIncome];
  }

  lemma SumOfFour(a: real, b: real, c: real, d: real)
    ensures Sum([a, b, c, d], Itself()) == a + b + c + d
  {
    assert [a, b, c, d][..3] == [a, b, c] && [a, b, c][..2] == [a, b] && [a, b][..1] == [a] && [a][..0] == [];
    assert Sum([a], Itself()) == a;
    assert Sum([a, b], Itself()) == a + b;
    assert Sum([a, b, c], Itself()) == a + b + c;
  }

  /** With fewer than four known records there is nothing. */
  lemma TtmNeedsFour(records: seq<Quarter>, asOf: int)
    requires |Known(records, asOf)| < 4
    ensures Ttm(records, asOf) == None
  {
  }

  lemma AverageTimes(window: seq<real>)
    requires window != []
    ensures Average(window) * |window| as real == Sum(window, Itself())
  {
    hide Sum;
  }

  lemma SignOfAverage(average: real, n: nat)
    requires n > 0
    ensures average * n as real > 0.0 <==> average > 0.0
  {
  }

  lemma RatioTimes(price: real, average: real, n: nat)
    requires average > 0.0
    ensures price / average * (average * n as real) == price * n as real
    ensures price > 0.0 <==> price / average > 0.0
  {
    var ratio := price / average;
    assert ratio * average == price;
    Regroup(ratio, average, n as real);
  }

  lemma Regroup(a: real, b: real, c: real)
    ensures a * (b * c) == (a * b) * c
  {
  }

  lemma InverseTimes(x: real)
    ensures x > 0.0 ==> 100.0 / x * x == 100.0
  {
  }

  /** The ratio of a point over a window that has a total. */
  predicate IsRated(p: Point, q: Point, n: nat, total: real, minimum: int) {
    && q == p.(pe10 := q.pe10, excessYield := q.excessYield)
    && (n < minimum || total <= 0.0 ==> q == p)
    && (n >= minimum && total > 0.0 ==>
          && q.pe10 * total == p.price * n as real
          && (if p.price > 0.0 then (q.excessYield + q.rate) * q.pe10 == 100.0 else q.excessYield == p.excessYield))
  }

  lemma RatioIs(p: Point, window: seq<real>, minimum: int)
    ensures IsRated(p, Ratio(p, window, minimum), |window|, Sum(window, Itself()), minimum)
  {
    var total, n, average := Sum(window, Itself()), |window|, Average(window);
    if n > 0 {
      AverageTimes(window);
      hide Sum;
      hide Average;
      SignOfAverage(average, n);
      RatioParts(p, average, n, total, minimum);
    }
  }

  lemma RatioParts(p: Point, average: real, n: nat, total: real, minimum: int)
    requires n > 0 && average * n as real == total && (total > 0.0 <==> average > 0.0)
    ensures var q := if n < minimum || average <= 0.0 then p
      else
        var pe10 := p.price / average;
        p.(pe10 := pe10, excessYield := if pe10 > 0.0 then 100.0 / pe10 - p.rate else p.excessYield);
      IsRated(p, q, n, total, minimum)
  {
    if average > 0.0 {
      RatioTimes(p.price, average, n);
      InverseTimes(p.price / average);
    }
  }

  /** A point is rated when its window is long enough and has positive earnings: its price is then the
      ratio times their average, and its yield and its rate together are the inverse of the ratio in
      percent. Nothing else of it changes. The window ends with the point itself. */
  lemma RatingIs(points: seq<Point>, i: nat, rolling: nat, minimum: int)
    requires i < |points|
    ensures var from := if i + 1 <= rolling then 0 else i + 1 - rolling;
      var window := Earnings(points[from..i + 1]);
      IsRated(points[i], Rated(points, i, rolling, minimum), |window|, Sum(window, Itself()), minimum)
  {
    var from := if i + 1 <= rolling then 0 else i + 1 - rolling;
    var window := Earnings(points[from..i + 1]);
    assert Last(Earnings(points[..i + 1]), rolling) == window;
    hide Sum;
    hide Earnings;
    hide Last;
    hide Ratio;
    hide IsRated;
    RatioIs(points[i], window, minimum);
  }

  /** The anchor that is last in the list among those known by a time. */
  lemma {:induction false} LastKnownIs(anchors: seq<Anchor>, at: int) returns (i: nat)
    ensures LastKnown(anchors, at).None? ==> forall a :: a in anchors ==> a.knownAt > at
    ensures LastKnown(anchors, at).Some? ==>
      && i < |anchors| && LastKnown(anchors, at).value == anchors[i] && anchors[i].knownAt <= at
      && forall j :: i < j < |anchors| ==> anchors[j].knownAt > at
  {
    if anchors == [] {
      i := 0;
    } else {
      var front, last := anchors[..|anchors| - 1], anchors[|anchors| - 1];
      assert anchors == front + [last];
      if last.knownAt <= at {
        i := |front|;
      } else {
        i := LastKnownIs(front, at);
      }
    }
  }

  /** The point of a bar has the bar's time and price and the anchor's month, and keeps the earnings that
      the anchor stands for: its price is to its ratio as the anchor's value is to the anchor's. */
  lemma LivePointIs(anchors: seq<Anchor>, bar: Bar)
    ensures var known, out := LastKnown(anchors, bar.at), LiveAt(anchors, bar);
      if known.None? || known.value.value <= 0.0 then out == []
      else
        && |out| == 1 && out[0].at == bar.at && out[0].price == bar.close && out[0].month == known.value.month
        && out[0].pe * known.value.value == known.value.pe10 * bar.close
  {
    var known := LastKnown(anchors, bar.at);
    hide LastKnown;
    if known.Some? && known.value.value > 0.0 {
      var a := known.value;
      assert bar.close / a.value * a.value == bar.close;
      Regroup(a.pe10, bar.close / a.value, a.value);
    }
  }
}
