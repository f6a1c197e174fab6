/**
 No command waits for ever: how many commands can be taken out of the queue before a given one, over whole
 runs with penalties and batches.
 */
module Fairness {
  import opened Text
  import opened ExecuteQueue
  import opened Pipeline
  import opened Accounting
  import opened Versions

  predicate Queued(s: State, id: nat) {
    exists e :: e in s.queue && e.waitStart == id
  }

  /** The transfer takes another command while `id` waits in the queue. */
  predicate PassesOver(s: State, ev: Event, id: nat) {
    ev.Transferred? && ev.entry.waitStart != id && Queued(s, id)
  }

  // ---------------------------------------------------------------- who can overtake

  /** A distance in start counts that ageing does not put out of reach. */
  predicate Near(d: int, priority: nat, factor: real) {
    d as real * factor <= (priority + PENALTY_MAX) as real
  }

  /** A later command passes over a waiting one only if it was submitted soon after. */
  lemma OvertakerIsClose(s: State, ev: Event, t: State, factor: real, e: Entry)
    requires Inv(s) && Step(s, ev, t, factor) && factor > 0.0
    requires PassesOver(s, ev, e.waitStart) && Versioned(s, e)
    ensures Near(ev.entry.waitStart - e.waitStart, e.priority, factor)
  {
    var x := OvertakenEntry(s, ev, t, factor, e);
    RankGap(ev.entry, x, factor);
  }

  lemma OvertakenEntry(s: State, ev: Event, t: State, factor: real, e: Entry) returns (x: Entry)
    requires Inv(s) && Step(s, ev, t, factor) && factor > 0.0
    requires PassesOver(s, ev, e.waitStart) && Versioned(s, e)
    ensures x.waitStart == e.waitStart && x.priority == e.priority && x.penalty <= PENALTY_MAX
    ensures Rank(ev.entry, factor) <= Rank(x, factor)
  {
    x :| x in s.queue && x.waitStart == e.waitStart;
    assert EntryOk(s, x) && IsVersion(x, e);
    OrderIgnoresCounter(ev.entry, x, s.counter, s.counter, factor);
  }

  lemma RankGap(e: Entry, x: Entry, factor: real)
    requires Rank(e, factor) <= Rank(x, factor) && x.penalty <= PENALTY_MAX
    ensures Near(e.waitStart - x.waitStart, x.priority, factor)
  {
    var a, b := e.waitStart as real, x.waitStart as real;
    assert (e.waitStart - x.waitStart) as real == a - b;
    assert (a - b) * factor == a * factor - b * factor;
    assert (e.priority + e.penalty) as real >= 0.0;
  }

  /** The commands submitted after `id` that are transferred while it waits, over the first n events. */
  ghost function Overtakers(states: seq<State>, events: seq<Event>, id: nat, n: nat): set<nat>
    requires n <= |events| < |states|
  {
    set i | 0 <= i < n && PassesOver(states[i], events[i], id) && events[i].entry.waitStart > id
      :: events[i].entry.waitStart
  }

  ghost predicate IsReach(k: nat, priority: nat, factor: real) {
    Near(k, priority, factor) && forall d: nat :: Near(d, priority, factor) ==> d <= k
  }

  lemma ReachExists(priority: nat, factor: real)
    requires factor > 0.0
    ensures exists k: nat :: IsReach(k, priority, factor)
  {
    var q := (priority + PENALTY_MAX) as real / factor;
    assert q * factor == (priority + PENALTY_MAX) as real;
    ProductSign(q, factor);
    ProductSign(q - q.Floor as real, factor);
    assert (q - q.Floor as real) * factor == q * factor - q.Floor as real * factor;
    var k: nat := q.Floor;
    forall d: nat | Near(d, priority, factor)
      ensures d <= k
    {
      ProductSign(d as real - q, factor);
      assert (d as real - q) * factor == d as real * factor - q * factor;
    }
    assert IsReach(k, priority, factor);
  }

  /** The greatest such distance. */
  ghost function Reach(priority: nat, factor: real): (k: nat)
    requires factor > 0.0
    ensures IsReach(k, priority, factor)
  {
    ReachExists(priority, factor);
    var k: nat :| IsReach(k, priority, factor);
    k
  }

  lemma ProductSign(x: real, factor: real)
    requires factor > 0.0
    ensures x > 0.0 ==> x * factor > 0.0
    ensures x < 0.0 ==> x * factor < 0.0
    ensures x == 0.0 ==> x * factor == 0.0
  {
  }

  lemma {:induction false} IntervalSize(s: set<nat>, low: nat, count: nat)
    requires forall y :: y in s ==> low < y <= low + count
    ensures |s| <= count
  {
    if count == 0 {
      assert s == {};
    } else {
      var t := s - {low + count};
      IntervalSize(t, low, count - 1);
    }
  }

  /**
   No starvation: over any run the distinct commands submitted after a given one and transferred while it
   waits are at most (its priority + the greatest penalty) / the ageing factor.
   */
  lemma NoStarvation(states: seq<State>, events: seq<Event>, factor: real, k: nat)
    requires IsRun(states, events, factor) && factor > 0.0
    requires k < |events| && events[k].Submitted?
    ensures var e := events[k].entry;
            |Overtakers(states, events, e.waitStart, |events|)| as real * factor <= (e.priority + PENALTY_MAX) as real
  {
    var e := events[k].entry;
    var reach := Reach(e.priority, factor);
    var o := Overtakers(states, events, e.waitStart, |events|);
    forall y | y in o
      ensures e.waitStart < y <= e.waitStart + reach
    {
      var i :| 0 <= i < |events| && PassesOver(states[i], events[i], e.waitStart) && events[i].entry.waitStart == y > e.waitStart;
      PassedOverAfter(states, events, factor, k, i);
    }
    IntervalSize(o, e.waitStart, reach);
    var n := |o|;
    assert (reach - n) as real * factor >= 0.0;
    assert n as real * factor == reach as real * factor - (reach - n) as real * factor;
  }

  /** Before its submission a command cannot be passed over, and afterwards only by commands within reach. */
  lemma PassedOverAfter(states: seq<State>, events: seq<Event>, factor: real, k: nat, i: nat)
    requires IsRun(states, events, factor) && factor > 0.0
    requires k < |events| && events[k].Submitted? && i < |events|
    requires PassesOver(states[i], events[i], events[k].entry.waitStart)
    ensures k < i
    ensures events[i].entry.waitStart <= events[k].entry.waitStart + Reach(events[k].entry.priority, factor)
  {
    var e := events[k].entry;
    if i <= k {
      NotQueuedYet(states, events, factor, k, i);
    } else {
      AccountsAlwaysOk(states, events, factor, i);
      VersionsKept(states, events, factor, k, i);
      assert StepAt(states, events, i, factor);
      OvertakerIsClose(states[i], events[i], states[i + 1], factor, e);
    }
  }

  lemma NotQueuedYet(states: seq<State>, events: seq<Event>, factor: real, k: nat, i: nat)
    requires IsRun(states, events, factor) && i <= k < |events| && events[k].Submitted?
    ensures !Queued(states[i], events[k].entry.waitStart)
  {
    AccountsAlwaysOk(states, events, factor, i);
    CounterGrows(states, events, factor, i, k);
    SubmissionStamp(states, events, factor, k);
    forall x | x in states[i].queue
      ensures x.waitStart != events[k].entry.waitStart
    {
      assert EntryOk(states[i], x);
    }
  }

  lemma SubmissionStamp(states: seq<State>, events: seq<Event>, factor: real, k: nat)
    requires IsRun(states, events, factor) && k < |events| && events[k].Submitted?
    ensures events[k].entry.waitStart == states[k].counter
  {
    assert StepAt(states, events, k, factor);
  }

  lemma {:induction false} CounterGrows(states: seq<State>, events: seq<Event>, factor: real, i: nat, j: nat)
    requires IsRun(states, events, factor) && i <= j < |states|
    ensures states[i].counter <= states[j].counter
    decreases j
  {
    if i < j {
      CounterGrows(states, events, factor, i, j - 1);
      CounterRuns(states, events, factor, j - 1);
    }
  }

  lemma CounterRuns(states: seq<State>, events: seq<Event>, factor: real, i: nat)
    requires IsRun(states, events, factor) && i < |events|
    ensures states[i].counter <= states[i + 1].counter
  {
    assert StepAt(states, events, i, factor);
    CounterStep(states[i], events[i], states[i + 1], factor);
  }

  lemma CounterStep(s: State, ev: Event, t: State, factor: real)
    requires Step(s, ev, t, factor)
    ensures s.counter <= t.counter
  {
    if ev.Executed? {
      ExecuteShape(s, ev.verdict, ById(0));
      assert t.counter == ExecuteNext(s, ev.verdict).counter;
    }
  }
}
