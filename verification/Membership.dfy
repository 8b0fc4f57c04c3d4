/**
 Index membership per month, rebuilt backwards from today's members
 (cmd/us-market-macro-fmp-sync/main.go:417-450 and 1013-1021).
 */
module Membership {
  import opened Ordering

  /** `month` counts calendar months; `day` is the day of the month, from 1. */
  datatype Date = Date(month: int, day: nat)

  predicate Earlier(a: Date, b: Date) {
    a.month < b.month || (a.month == b.month && a.day < b.day)
  }

  /** The first day of the following month. */
  function MonthEnd(month: int): Date { Date(month + 1, 1) }

  /** `added` and `removed` are "" when the change has no such side. */
  datatype Change = Change(date: Date, added: string, removed: string)

  predicate NewestFirst(changes: seq<Change>) {
    forall i, j :: 0 <= i < j < |changes| ==> !Earlier(changes[i].date, changes[j].date)
  }

  function UndoOne(members: set<string>, c: Change): set<string> {
    var kept := if c.added != "" then members - {c.added} else members;
    if c.removed != "" then kept + {c.removed} else kept
  }

  /** Undo changes, the newest first. */
  function Undo(members: set<string>, changes: seq<Change>): set<string> {
    if changes == [] then members
    else UndoOne(Undo(members, changes[..|changes| - 1]), changes[|changes| - 1])
  }

  lemma UndoNothing(members: set<string>, changes: seq<Change>)
    ensures Undo(members, changes[..0]) == members
  {
  }

  lemma UndoStep(members: set<string>, changes: seq<Change>, i: nat)
    requires i < |changes|
    ensures Undo(members, changes[..i + 1]) == UndoOne(Undo(members, changes[..i]), changes[i])
  {
    assert changes[..i + 1][..i] == changes[..i];
  }

  /** The changes dated at or after the end of a month, in their order. */
  function Since(changes: seq<Change>, month: int): seq<Change> {
    if changes == [] then []
    else
      var front, c := Since(changes[..|changes| - 1], month), changes[|changes| - 1];
      if Earlier(c.date, MonthEnd(month)) then front else front + [c]
  }

  lemma {:induction false} SinceIsPrefix(changes: seq<Change>, month: int, n: nat)
    requires n <= |changes|
    requires forall i :: 0 <= i < n ==> !Earlier(changes[i].date, MonthEnd(month))
    requires forall i :: n <= i < |changes| ==> Earlier(changes[i].date, MonthEnd(month))
    ensures Since(changes, month) == changes[..n]
  {
    if changes == [] {
    } else {
      var last := |changes| - 1;
      if n <= last {
        SinceIsPrefix(changes[..last], month, n);
        assert changes[..last][..n] == changes[..n];
      } else {
        SinceIsPrefix(changes[..last], month, last);
        assert changes[..last][..last] == changes[..last];
        assert changes[..n] == changes[..last] + [changes[last]];
      }
    }
  }

  method MonthStarts(from: Date, to: Date) returns (months: seq<int>)
    ensures |months| == if from.month < to.month then to.month - from.month else 0
    ensures forall i :: 0 <= i < |months| ==> months[i] == from.month + i
  {
    months := [];
    var month := from.month;
    while month < to.month
      invariant month == from.month + |months|
      invariant |months| == 0 || month <= to.month
      invariant forall i :: 0 <= i < |months| ==> months[i] == from.month + i
    {
      months := months + [month];
      month := month + 1;
    }
  }

  function Members(symbols: seq<string>): set<string> {
    set s | s in symbols
  }

  /** The inner loop: move the index past every change at or after the end of the month. */
  method UndoSince(ghost today: set<string>, members: set<string>, changes: seq<Change>, start: nat, month: int)
    returns (rest: set<string>, next: nat)
    requires NewestFirst(changes) && start <= |changes|
    requires members == Undo(today, changes[..start])
    requires forall i :: 0 <= i < start ==> !Earlier(changes[i].date, MonthEnd(month))
    ensures next <= |changes| && rest == Undo(today, changes[..next])
    ensures Since(changes, month) == changes[..next]
    ensures forall i :: 0 <= i < next ==> !Earlier(changes[i].date, MonthEnd(month))
  {
    hide Undo;
    hide Since;
    rest, next := members, start;
    while next < |changes| && !Earlier(changes[next].date, MonthEnd(month))
      invariant start <= next <= |changes|
      invariant rest == Undo(today, changes[..next])
      invariant forall i :: 0 <= i < next ==> !Earlier(changes[i].date, MonthEnd(month))
    {
      var change := changes[next];
      UndoStep(today, changes, next);
      if change.added != "" {
        rest := rest - {change.added};
      }
      if change.removed != "" {
        rest := rest + {change.removed};
      }
      next := next + 1;
    }
    SinceIsPrefix(changes, month, next);
  }

  /** The members as a set. */
  method MemberSet(current: seq<string>) returns (currentSet: set<string>)
    ensures currentSet == Members(current)
  {
    currentSet := {};
    for i := 0 to |current|
      invariant currentSet == Members(current[..i])
    {
      assert current[..i + 1] == current[..i] + [current[i]];
      currentSet := currentSet + {current[i]};
    }
    assert current[..|current|] == current;
  }

  /** A change since the end of a month is a change since the end of the month before. */
  lemma StillSince(changes: seq<Change>, n: nat, month: int)
    requires n <= |changes|
    requires forall i :: 0 <= i < n ==> !Earlier(changes[i].date, MonthEnd(month + 1))
    ensures forall i :: 0 <= i < n ==> !Earlier(changes[i].date, MonthEnd(month))
  {
  }

  /** The members in ascending order. */
  method SortedMembers(members: set<string>) returns (r: seq<string>)
    ensures Ascending(r) && Members(r) == members
  {
    var list: seq<string>, rest := [], members;
    while rest != {}
      invariant rest <= members && Distinct(list)
      invariant forall s :: s in list <==> s in members - rest
      decreases |rest|
    {
      var symbol :| symbol in rest;
      assert symbol !in list && forall i :: 0 <= i < |list| ==> list[i] in list;
      list := list + [symbol];
      rest := rest - {symbol};
    }
    hide Ascending;
    r := Sorted(list);
  }

  /** For every month in range, in ascending order: today's members with exactly the changes dated at
      or after the end of that month undone. One index serves all months. */
  method BuildMonthlyMemberships(current: seq<string>, changes: seq<Change>, from: Date, to: Date)
    returns (out: map<int, seq<string>>)
    requires NewestFirst(changes)
    ensures forall m :: m in out <==> from.month <= m < to.month
    ensures forall m :: m in out ==> Ascending(out[m]) && Members(out[m]) == Undo(Members(current), Since(changes, m))
  {
    hide *;
    var currentSet := MemberSet(current);
    ghost var today := currentSet;
    UndoNothing(today, changes);
    var months := MonthStarts(from, to);
    out := map[];
    var changeIndex := 0;
    var index := |months|;
    while index > 0
      invariant 0 <= index <= |months| && 0 <= changeIndex <= |changes|
      invariant currentSet == Undo(today, changes[..changeIndex])
      invariant forall i :: 0 <= i < changeIndex ==> !Earlier(changes[i].date, MonthEnd(from.month + index))
      invariant forall m :: m in out <==> from.month + index <= m < from.month + |months|
      invariant forall m :: m in out ==> Ascending(out[m]) && Members(out[m]) == Undo(today, Since(changes, m))
    {
      index := index - 1;
      StillSince(changes, changeIndex, from.month + index);
      currentSet, changeIndex := UndoSince(today, currentSet, changes, changeIndex, months[index]);
      var members := SortedMembers(currentSet);
      out := out[months[index] := members];
    }
  }

  // ---- Undoing is replaying less ----

  function ApplyOne(members: set<string>, c: Change): set<string> {
    var kept := if c.removed != "" then members - {c.removed} else members;
    if c.added != "" then kept + {c.added} else kept
  }

  /** Apply a history, the oldest change first. */
  function Replay(members: set<string>, history: seq<Change>): set<string> {
    if history == [] then members
    else ApplyOne(Replay(members, history[..|history| - 1]), history[|history| - 1])
  }

  /** The change adds a new member and removes an old one (or replaces a member by itself). */
  predicate Consistent(members: set<string>, c: Change) {
    && (c.removed != "" ==> c.removed in members)
    && (c.added != "" ==> c.added !in members || c.added == c.removed)
  }

  /** Undoing a change restores the members exactly when the change was consistent with them. */
  lemma UndoRestoresIff(members: set<string>, c: Change)
    ensures UndoOne(ApplyOne(members, c), c) == members <==> Consistent(members, c)
  {
    var back := UndoOne(ApplyOne(members, c), c);
    if Consistent(members, c) {
      assert back == members;
    } else if c.removed != "" && c.removed !in members {
      assert c.removed in back;
    } else {
      assert c.added in members && c.added !in back;
    }
  }

  predicate ConsistentHistory(members: set<string>, history: seq<Change>) {
    forall i :: 0 <= i < |history| ==> Consistent(Replay(members, history[..i]), history[i])
  }

  function Reversed(history: seq<Change>): (r: seq<Change>)
    ensures |r| == |history| && forall i :: 0 <= i < |r| ==> r[i] == history[|history| - 1 - i]
  {
    seq(|history|, i requires 0 <= i < |history| => history[|history| - 1 - i])
  }

  lemma ReversedAppend(front: seq<Change>, c: Change)
    ensures Reversed(front + [c]) == [c] + Reversed(front)
  {
  }

  lemma {:induction false} UndoFirst(members: set<string>, c: Change, changes: seq<Change>)
    ensures Undo(members, [c] + changes) == Undo(UndoOne(members, c), changes)
  {
    if changes == [] {
      assert [c] + changes == [c] && [c][..0] == [];
      assert Undo(members, [c]) == UndoOne(Undo(members, []), c);
    } else {
      var last := |changes| - 1;
      assert ([c] + changes)[..|changes|] == [c] + changes[..last];
      UndoFirst(members, c, changes[..last]);
    }
  }

  lemma ConsistentFront(members: set<string>, front: seq<Change>, c: Change)
    requires ConsistentHistory(members, front + [c])
    ensures ConsistentHistory(members, front) && Consistent(Replay(members, front), c)
  {
    var all := front + [c];
    forall i | 0 <= i < |front|
      ensures Consistent(Replay(members, front[..i]), front[i])
    {
      assert front[..i] == all[..i] && all[i] == front[i];
    }
    assert all[..|front|] == front && all[|front|] == c;
  }

  /** Undoing the end of a consistent history, newest first, is replaying only its beginning. */
  lemma {:induction false} UndoIsPartialReplay(members: set<string>, history: seq<Change>, n: nat)
    requires n <= |history| && ConsistentHistory(members, history)
    ensures Undo(Replay(members, history), Reversed(history[n..])) == Replay(members, history[..n])
  {
    hide ConsistentHistory;
    hide Consistent;
    hide UndoOne;
    hide ApplyOne;
    if n == |history| {
      assert history[..n] == history && history[n..] == [];
    } else {
      var last := |history| - 1;
      var front, c := history[..last], history[last];
      assert history == front + [c];
      ConsistentFront(members, front, c);
      UndoIsPartialReplay(members, front, n);
      var tail := history[n..];
      assert tail == front[n..] + [c];
      ReversedAppend(front[n..], c);
      hide Reversed;
      UndoFirst(Replay(members, history), c, Reversed(front[n..]));
      hide Undo;
      UndoRestoresIff(Replay(members, front), c);
      assert front[..n] == history[..n];
    }
  }

  predicate OldestFirst(history: seq<Change>) {
    forall i, j :: 0 <= i < j < |history| ==> !Earlier(history[j].date, history[i].date)
  }

  /** The changes dated before the end of a month. */
  function Until(history: seq<Change>, month: int): seq<Change> {
    if history == [] then []
    else
      var front, c := Until(history[..|history| - 1], month), history[|history| - 1];
      if Earlier(c.date, MonthEnd(month)) then front + [c] else front
  }

  lemma EarlierToo(a: Date, b: Date, end: Date)
    requires !Earlier(b, a) && Earlier(b, end)
    ensures Earlier(a, end)
  {
  }

  lemma OldestFront(history: seq<Change>)
    requires OldestFirst(history) && history != []
    ensures OldestFirst(history[..|history| - 1])
  {
  }

  lemma EarlierBefore(history: seq<Change>, i: nat, end: Date)
    requires OldestFirst(history) && i < |history| - 1
    requires Earlier(history[|history| - 1].date, end)
    ensures Earlier(history[i].date, end)
  {
    hide Earlier;
    EarlierToo(history[i].date, history[|history| - 1].date, end);
  }

  lemma {:induction false} SplitHistory(history: seq<Change>, month: int) returns (n: nat)
    requires OldestFirst(history)
    ensures n <= |history| && Until(history, month) == history[..n]
    ensures forall i :: 0 <= i < n ==> Earlier(history[i].date, MonthEnd(month))
    ensures forall i :: n <= i < |history| ==> !Earlier(history[i].date, MonthEnd(month))
  {
    hide Earlier;
    hide OldestFirst;
    if history == [] {
      n := 0;
    } else {
      var last := |history| - 1;
      OldestFront(history);
      n := SplitHistory(history[..last], month);
      assert history[..last][..n] == history[..n];
      if Earlier(history[last].date, MonthEnd(month)) {
        if n < last {
          EarlierBefore(history, n, MonthEnd(month));
        }
        assert n == last;
        n := |history|;
        assert history[..n] == history[..last] + [history[last]];
      }
    }
  }

  /** Membership reconstruction. If today's members come from a consistent history, then for every
      month the backward sweep gives what a forward replay of the changes before the month's end
      gives. */
  lemma ReconstructionIsReplay(original: set<string>, history: seq<Change>, month: int)
    requires OldestFirst(history) && ConsistentHistory(original, history)
    ensures NewestFirst(Reversed(history))
    ensures Undo(Replay(original, history), Since(Reversed(history), month)) == Replay(original, Until(history, month))
  {
    var newest := Reversed(history);
    var n := SplitHistory(history, month);
    SinceIsPrefix(newest, month, |history| - n);
    ReversedTail(history, n);
    UndoIsPartialReplay(original, history, n);
  }

  lemma ReversedTail(history: seq<Change>, n: nat)
    requires n <= |history|
    ensures Reversed(history[n..]) == Reversed(history)[..|history| - n]
  {
  }

  // ---- Months ----

  /** A day is before the end of a month when it lies in the month or in an earlier one. */
  lemma MonthEndIs(date: Date, month: int)
    requires date.day >= 1
    ensures Earlier(date, MonthEnd(month)) <==> date.month <= month
  {
  }

  /** The changes that are undone for a month are those of later months, and no other. */
  lemma {:induction false} SinceIs(changes: seq<Change>, month: int, c: Change)
    requires forall x :: x in changes ==> x.date.day >= 1
    ensures c in Since(changes, month) <==> c in changes && c.date.month > month
  {
    if changes == [] {
    } else {
      var front, last := changes[..|changes| - 1], changes[|changes| - 1];
      assert changes == front + [last];
      SinceIs(front, month, c);
      MonthEndIs(last.date, month);
      hide Earlier;
    }
  }

  /** The changes that a replay up to a month applies are those of the month and of earlier ones. */
  lemma {:induction false} UntilIs(history: seq<Change>, month: int, c: Change)
    requires forall x :: x in history ==> x.date.day >= 1
    ensures c in Until(history, month) <==> c in history && c.date.month <= month
  {
    if history == [] {
    } else {
      var front, last := history[..|history| - 1], history[|history| - 1];
      assert history == front + [last];
      UntilIs(front, month, c);
      MonthEndIs(last.date, month);
      hide Earlier;
    }
  }
}
