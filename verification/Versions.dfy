/** What stays of a command while it waits, is moved, put back, or loses its client. */
module Versions {
  import opened Entities
  import opened Text
  import opened ExecuteQueue
  import opened Pipeline
  import opened Accounting

  /** A version of a command has its priority, and its client unless that is gone. */
  predicate IsVersion(x: Entry, e: Entry) {
    x.waitStart == e.waitStart ==> x.priority == e.priority && (x.key == e.key || x.key.None?)
  }

  /** Everything that the server holds under the command's start count is a version of it. */
  predicate Versioned(s: State, e: Entry) {
    && e.waitStart < s.counter
    && (forall x :: x in s.queue ==> IsVersion(x, e))
    && (forall x :: x in s.cache ==> IsVersion(x, e))
  }

  lemma VersionedSame(s: State, t: State, e: Entry)
    requires Same(s, t) && Versioned(t, e)
    ensures Versioned(s, e)
  {
    SameCounts(s, t);
    assert s.cache == t.cache && s.counter == t.counter;
  }

  lemma StepKeepsVersions(s: State, ev: Event, t: State, factor: real, e: Entry)
    requires Step(s, ev, t, factor) && Versioned(s, e)
    ensures Versioned(t, e)
  {
    match ev
    case Attached(h) =>
      VersionedSame(t, s.(clients := s.clients[h := Client(0, 0, 0)], nextHandle := h + 1), e);
    case Submitted(x) =>
      VersionedSame(t, Submission(s, x), e);
    case Rejected(h) =>
      VersionedSame(t, WithErrors(s, h, s.clients[h].errors + 1), e);
    case Transferred(x) =>
      TransferCounts(s, x, t, ById(e.waitStart));
      assert t.cache == s.cache + [x] && t.counter == s.counter;
    case Executed(_, v) =>
      ExecuteKeepsVersions(s, v, e);
      VersionedSame(t, ExecuteNext(s, v), e);
    case Detached(h) =>
      var u := s.(clients := s.clients - {h}, queue := CancelAll(s.queue, h));
      CancelKeepsVersions(s, h, u, e);
      VersionedSame(t, u, e);
  }

  lemma ExecuteKeepsVersions(s: State, v: Verdict, e: Entry)
    requires s.cache != [] && Fits(s, s.cache[0], v) && Versioned(s, e)
    ensures Versioned(ExecuteNext(s, v), e)
  {
    ExecuteShape(s, v, ById(e.waitStart));
    var back := PutBack(s, s.cache[0], v);
    assert IsVersion(s.cache[0], e);
    forall x | x in s.queue + back
      ensures IsVersion(x, e)
    {
      assert x in s.queue || (back != [] && x == back[0]);
    }
  }

  lemma CancelKeepsVersions(s: State, h: Handle, u: State, e: Entry)
    requires Versioned(s, e) && u == s.(clients := s.clients - {h}, queue := CancelAll(s.queue, h))
    ensures Versioned(u, e)
  {
    forall x | x in u.queue
      ensures IsVersion(x, e)
    {
      var i :| 0 <= i < |u.queue| && u.queue[i] == x;
      assert s.queue[i] in s.queue;
    }
  }

  lemma SubmittedVersion(s: State, e: Entry, t: State, factor: real)
    requires Inv(s) && Step(s, Submitted(e), t, factor)
    ensures Versioned(t, e)
  {
    var u := Submission(s, e);
    forall x | x in s.queue
      ensures x.waitStart != e.waitStart
    {
      assert EntryOk(s, x);
    }
    forall x | x in u.cache
      ensures x.waitStart != e.waitStart
    {
      assert EntryOk(s, x);
    }
    VersionedSame(t, u, e);
  }

  lemma RunKeepsVersions(states: seq<State>, events: seq<Event>, factor: real, i: nat, e: Entry)
    requires IsRun(states, events, factor) && i < |events| && Versioned(states[i], e)
    ensures Versioned(states[i + 1], e)
  {
    assert StepAt(states, events, i, factor);
    StepKeepsVersions(states[i], events[i], states[i + 1], factor, e);
  }

  /** From its submission on, whatever is held under a command's start count is a version of it. */
  lemma {:induction false} VersionsKept(states: seq<State>, events: seq<Event>, factor: real, k: nat, i: nat)
    requires IsRun(states, events, factor) && k < i < |states| && events[k].Submitted?
    ensures Versioned(states[i], events[k].entry)
    decreases i
  {
    if i == k + 1 {
      AccountsAlwaysOk(states, events, factor, k);
      assert StepAt(states, events, k, factor);
      SubmittedVersion(states[k], events[k].entry, states[i], factor);
    } else {
      VersionsKept(states, events, factor, k, i - 1);
      RunKeepsVersions(states, events, factor, i - 1, events[k].entry);
    }
  }
}
