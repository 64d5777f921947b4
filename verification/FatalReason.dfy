/** The shared fatal-reason cell: recorders, a clearer and waiters interleave in critical sections
    of one mutex; waiters sleep on its condition variable and may wake for no reason. */
module FatalReason {
  import opened Prelude

  /** `Asleep(notified)`: waiting on the condition variable, and whether a notification has come. */
  datatype Waiter = Asleep(notified: bool) | Returned(reason: string)

  datatype Cell = Cell(reason: Option<string>, waiters: map<nat, Waiter>)

  /** `Check(w)`: waiter `w` holds the mutex and looks, for the first time or after waking. */
  datatype Event = Record(reason: string) | Clear | Check(waiter: nat)

  function Notified(w: Waiter): Waiter {
    match w
    case Asleep(_) => Asleep(true)
    case other => other
  }

  function Step(c: Cell, e: Event): Cell {
    match e
    case Record(reason) =>
      if c.reason.Some? then c
      else Cell(Some(reason), map w | w in c.waiters :: Notified(c.waiters[w]))
    case Clear => c.(reason := None)
    case Check(w) =>
      if w in c.waiters && c.waiters[w].Returned? then c
      else c.(waiters := c.waiters[w := match c.reason case Some(r) => Returned(r) case None => Asleep(false)])
  }

  function Run(events: seq<Event>): Cell {
    if events == [] then Cell(None, map[]) else Step(Run(events[..|events| - 1]), events[|events| - 1])
  }

  predicate ClearBetween(events: seq<Event>, i: nat, j: nat) {
    exists k :: i < k < j && k < |events| && events[k] == Clear
  }

  /** The recording at `i` is the first one since the last clear. */
  predicate IsFirstRecorded(events: seq<Event>, i: nat) {
    && i < |events| && events[i].Record?
    && !ClearBetween(events, i, |events|)
    && forall j :: 0 <= j < i && events[j].Record? ==> ClearBetween(events, j, i)
  }

  ghost predicate Holds(events: seq<Event>, reason: string) {
    exists i: nat :: IsFirstRecorded(events, i) && events[i].reason == reason
  }

  lemma ClearBetweenWidens(events: seq<Event>, i: nat, j: nat, m: nat)
    requires j <= m
    ensures ClearBetween(events, i, j) ==> ClearBetween(events, i, m)
  {
    if k :| i < k < j && k < |events| && events[k] == Clear {
      assert i < k < m;
    }
  }

  lemma FirstRecordedIsUnique(events: seq<Event>, i: nat, j: nat)
    requires IsFirstRecorded(events, i) && IsFirstRecorded(events, j)
    ensures i == j
  {
    ClearBetweenWidens(events, i, j, |events|);
    ClearBetweenWidens(events, j, i, |events|);
  }

  /** The position whose reason the cell holds. */
  ghost function Holder(events: seq<Event>): Option<nat> {
    if events == [] then None
    else
      var before := Holder(events[..|events| - 1]);
      match events[|events| - 1]
      case Record(_) => if before.Some? then before else Some(|events| - 1)
      case Clear => None
      case Check(_) => before
  }

  lemma {:induction false} CellHoldsHolder(events: seq<Event>)
    ensures match Holder(events)
            case None => Run(events).reason.None?
            case Some(i) => i < |events| && events[i].Record? && Run(events).reason == Some(events[i].reason)
  {
    if events != [] {
      CellHoldsHolder(events[..|events| - 1]);
    }
  }

  lemma ClearBetweenExtends(front: seq<Event>, last: Event, i: nat, j: nat)
    requires j <= |front|
    ensures ClearBetween(front + [last], i, j) <==> ClearBetween(front, i, j)
  {
    if k :| i < k < j && (front + [last])[k] == Clear {
      assert front[k] == Clear;
    }
    if k :| i < k < j && k < |front| && front[k] == Clear {
      assert (front + [last])[k] == Clear;
    }
  }

  /** No recording is later than its last clear. */
  ghost predicate AllCleared(events: seq<Event>) {
    forall j :: 0 <= j < |events| && events[j].Record? ==> ClearBetween(events, j, |events|)
  }

  lemma {:induction false} HolderIsFirstRecorded(events: seq<Event>)
    ensures match Holder(events)
            case None => AllCleared(events)
            case Some(i) => IsFirstRecorded(events, i)
  {
    if events != [] {
      var front, last := events[..|events| - 1], events[|events| - 1];
      assert events == front + [last];
      HolderIsFirstRecorded(front);
      HolderNext(front, last);
    }
  }

  lemma HolderNext(front: seq<Event>, last: Event)
    requires match Holder(front)
             case None => AllCleared(front)
             case Some(i) => IsFirstRecorded(front, i)
    ensures match Holder(front + [last])
            case None => AllCleared(front + [last])
            case Some(i) => IsFirstRecorded(front + [last], i)
  {
    var events, n := front + [last], |front|;
    assert events[..n] == front;
    if last == Clear {
      assert forall j :: 0 <= j < n && events[j].Record? ==> ClearBetween(events, j, n + 1) by {
        assert events[n] == Clear;
      }
    } else if Holder(front).None? {
      AllClearedNext(front, last);
    } else {
      FirstRecordedNext(front, last, Holder(front).value);
    }
  }

  lemma AllClearedNext(front: seq<Event>, last: Event)
    requires AllCleared(front) && last != Clear
    ensures if last.Record? then IsFirstRecorded(front + [last], |front|) else AllCleared(front + [last])
  {
    forall j | 0 <= j < |front| && front[j].Record?
      ensures ClearBetween(front + [last], j, |front|) && ClearBetween(front + [last], j, |front| + 1)
    {
      ClearBetweenExtends(front, last, j, |front|);
      var k :| j < k < |front| && (front + [last])[k] == Clear;
    }
  }

  lemma FirstRecordedNext(front: seq<Event>, last: Event, i: nat)
    requires IsFirstRecorded(front, i) && last != Clear
    ensures IsFirstRecorded(front + [last], i)
  {
    forall j | 0 <= j <= i ensures ClearBetween(front + [last], j, i) <==> ClearBetween(front, j, i) {
      ClearBetweenExtends(front, last, j, i);
    }
    ClearBetweenExtends(front, last, i, |front|);
  }

  /** The cell holds exactly the reason recorded first since the last clear. */
  lemma CellHoldsFirstReason(events: seq<Event>, reason: string)
    ensures Run(events).reason == Some(reason) <==> Holds(events, reason)
  {
    CellHoldsHolder(events);
    HolderIsFirstRecorded(events);
    if Holds(events, reason) && Holder(events).Some? {
      var i: nat :| IsFirstRecorded(events, i) && events[i].reason == reason;
      FirstRecordedIsUnique(events, i, Holder(events).value);
    }
  }

  /** A reason that is set changes only by a clear. */
  lemma ReasonIsStable(c: Cell, e: Event)
    ensures c.reason.Some? && e != Clear ==> Step(c, e).reason == c.reason
  {
  }

  /** No lost wake-up: a waiter that sleeps without a notification sees no reason. */
  lemma {:induction false} NoLostWakeUp(events: seq<Event>, w: nat)
    ensures var c := Run(events);
            w in c.waiters && c.waiters[w] == Asleep(false) ==> c.reason.None?
  {
    if events != [] {
      NoLostWakeUp(events[..|events| - 1], w);
    }
  }

  /** So once a reason is set, every sleeper has been notified, and the first look of any waiter
      returns that reason. */
  lemma SetReasonReachesEveryWaiter(events: seq<Event>, w: nat)
    requires Run(events).reason.Some?
    ensures w in Run(events).waiters ==> Run(events).waiters[w] != Asleep(false)
    ensures !(w in Run(events).waiters && Run(events).waiters[w].Returned?) ==>
              Step(Run(events), Check(w)).waiters[w] == Returned(Run(events).reason.value)
  {
    NoLostWakeUp(events, w);
  }

  /** A waiter that has returned did so at some look, with the reason recorded first since the last
      clear before it. */
  lemma {:induction false} WaitersReturnFirstReason(events: seq<Event>, w: nat)
    requires w in Run(events).waiters && Run(events).waiters[w].Returned?
    ensures exists k :: 0 <= k < |events| && events[k] == Check(w)
              && Holds(events[..k], Run(events).waiters[w].reason)
  {
    if events != [] {
      var n := |events| - 1;
      var front := events[..n];
      if w in Run(front).waiters && Run(front).waiters[w].Returned? {
        WaitersReturnFirstReason(front, w);
        var k :| 0 <= k < |front| && front[k] == Check(w) && Holds(front[..k], Run(front).waiters[w].reason);
        assert front[..k] == events[..k];
      } else {
        CellHoldsFirstReason(front, Run(events).waiters[w].reason);
        assert events[n] == Check(w) && events[..n] == front;
      }
    }
  }

  /** The runtime clears the cell once, before any recorder exists: then every waiter returns the
      very first reason recorded. */
  lemma WithoutClearFirstReasonWins(events: seq<Event>, w: nat) returns (i: nat)
    requires forall k :: 0 <= k < |events| ==> events[k] != Clear
    requires w in Run(events).waiters && Run(events).waiters[w].Returned?
    ensures i < |events| && events[i] == Record(Run(events).waiters[w].reason)
    ensures forall j :: 0 <= j < i ==> !events[j].Record?
  {
    WaitersReturnFirstReason(events, w);
    var k :| 0 <= k < |events| && events[k] == Check(w) && Holds(events[..k], Run(events).waiters[w].reason);
    var front := events[..k];
    i :| IsFirstRecorded(front, i) && front[i].reason == Run(events).waiters[w].reason;
    forall j | 0 <= j < i ensures !events[j].Record? {
      assert front[j] == events[j];
    }
  }
}
