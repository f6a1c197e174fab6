/** Who is served, and how often, over whole runs of the pipeline. */
module Service {
  import opened Entities
  import opened Text
  import opened ExecuteQueue
  import opened Pipeline
  import opened Accounting
  import opened Versions

  /** The event hands the command over: to its receiver, or to the server's own code. */
  predicate Serves(ev: Event) {
    ev.Executed? && (ev.verdict.Sent? || ev.verdict.Evaluated?)
  }

  // ---------------------------------------------------------------- removed clients

  predicate Gone(s: State, h: Handle) {
    h !in s.clients && h < s.nextHandle
  }

  lemma StepKeepsGone(s: State, ev: Event, t: State, factor: real, h: Handle)
    requires Inv(s) && Step(s, ev, t, factor) && Gone(s, h)
    ensures Gone(t, h)
  {
    if ev.Executed? {
      ExecuteClients(s, ev.verdict);
      var u := ExecuteNext(s, ev.verdict);
      assert t.clients == u.clients && t.nextHandle == u.nextHandle;
    }
  }

  lemma {:induction false} GoneForGood(states: seq<State>, events: seq<Event>, factor: real, i: nat, j: nat, h: Handle)
    requires IsRun(states, events, factor) && i <= j < |states| && Gone(states[i], h)
    ensures Gone(states[j], h)
    decreases j
  {
    if i < j {
      GoneForGood(states, events, factor, i, j - 1, h);
      AccountsAlwaysOk(states, events, factor, j - 1);
      assert StepAt(states, events, j - 1, factor);
      StepKeepsGone(states[j - 1], events[j - 1], states[j], factor, h);
    }
  }

  /**
   Once a client is removed, none of the commands it ever submitted is sent on or evaluated, wherever it was held
   then: taking it out of the cache changes no account and puts nothing back.
   */
  lemma RemovedNeverServed(states: seq<State>, events: seq<Event>, factor: real, k: nat, i: nat, j: nat, h: Handle)
    requires IsRun(states, events, factor) && i < j < |events| && k < j
    requires events[k].Submitted? && events[k].entry.key == Some(h)
    requires h in states[i].clients && h !in states[i + 1].clients
    requires events[j].Executed? && events[j].entry.waitStart == events[k].entry.waitStart
    ensures !Serves(events[j])
    ensures states[j + 1].clients == states[j].clients
    ensures multiset(states[j + 1].queue) == multiset(states[j].queue)
  {
    RemovalIsGone(states, events, factor, i, h);
    GoneForGood(states, events, factor, i + 1, j, h);
    VersionsKept(states, events, factor, k, j);
    assert StepAt(states, events, j, factor);
    assert IsVersion(events[j].entry, events[k].entry);
    OrphanChangesNothing(states[j], events[j], states[j + 1], factor);
  }

  lemma RemovalIsGone(states: seq<State>, events: seq<Event>, factor: real, i: nat, h: Handle)
    requires IsRun(states, events, factor) && i < |events|
    requires h in states[i].clients && h !in states[i + 1].clients
    ensures Gone(states[i + 1], h)
  {
    AccountsAlwaysOk(states, events, factor, i);
    assert StepAt(states, events, i, factor);
    if events[i].Executed? {
      ExecuteClients(states[i], events[i].verdict);
    }
  }

  lemma OrphanChangesNothing(s: State, ev: Event, t: State, factor: real)
    requires Step(s, ev, t, factor) && ev.Executed? && !Living(s, ev.entry)
    ensures !Serves(ev) && t.clients == s.clients && multiset(t.queue) == multiset(s.queue)
  {
  }

  // ---------------------------------------------------------------- each command once

  predicate Finished(s: State, id: nat) {
    id < s.counter && Copies(s, id) == 0
  }

  lemma SubmissionKeepsFinished(s: State, e: Entry, id: nat)
    requires e.key.Some? && e.key.value in s.clients && e.waitStart == s.counter && Finished(s, id)
    ensures Finished(Submission(s, e), id)
  {
    SumConcat(s.queue, [e], ById(id));
  }

  lemma StepKeepsFinished(s: State, ev: Event, t: State, factor: real, id: nat)
    requires Inv(s) && Step(s, ev, t, factor) && Finished(s, id)
    ensures Finished(t, id)
  {
    hide Inv, ExecuteNext, CancelAll, Sum;
    match ev
    case Attached(h) =>
      SameCounts(t, s.(clients := s.clients[h := Client(0, 0, 0)], nextHandle := h + 1));
    case Submitted(e) =>
      SameCounts(t, Submission(s, e));
      SubmissionKeepsFinished(s, e, id);
    case Rejected(h) =>
      SameCounts(t, WithErrors(s, h, s.clients[h].errors + 1));
    case Transferred(e) =>
      TransferCounts(s, e, t, ById(id));
    case Executed(_, _) =>
      ExecutedKeepsFinished(s, ev, t, factor, id);
    case Detached(h) =>
      SameCounts(t, s.(clients := s.clients - {h}, queue := CancelAll(s.queue, h)));
      CancelSum(s.queue, h, ById(id));
  }

  lemma ExecutedKeepsFinished(s: State, ev: Event, t: State, factor: real, id: nat)
    requires Inv(s) && Step(s, ev, t, factor) && ev.Executed? && Finished(s, id)
    ensures Finished(t, id)
  {
    SameCounts(t, ExecuteNext(s, ev.verdict));
    ExecuteCopies(s, ev.verdict, id);
    ExecuteShape(s, ev.verdict, ById(id));
  }

  lemma RunKeepsFinished(states: seq<State>, events: seq<Event>, factor: real, i: nat, id: nat)
    requires IsRun(states, events, factor) && i < |events| && Finished(states[i], id)
    ensures Finished(states[i + 1], id)
  {
    AccountsAlwaysOk(states, events, factor, i);
    assert StepAt(states, events, i, factor);
    StepKeepsFinished(states[i], events[i], states[i + 1], factor, id);
  }

  lemma {:induction false} FinishedForGood(states: seq<State>, events: seq<Event>, factor: real, i: nat, j: nat, id: nat)
    requires IsRun(states, events, factor) && i <= j < |states| && Finished(states[i], id)
    ensures Finished(states[j], id)
    decreases j
  {
    if i < j {
      FinishedForGood(states, events, factor, i, j - 1, id);
      RunKeepsFinished(states, events, factor, j - 1, id);
    }
  }

  lemma ServedIsFinished(s: State, ev: Event, t: State, factor: real)
    requires Inv(s) && Step(s, ev, t, factor) && Serves(ev)
    ensures Finished(t, ev.entry.waitStart)
  {
    var id := ev.entry.waitStart;
    SameCounts(t, ExecuteNext(s, ev.verdict));
    assert Copies(s, id) <= 1;
    ExecuteCopies(s, ev.verdict, id);
    ExecuteShape(s, ev.verdict, ById(id));
    assert EntryOk(s, ev.entry);
  }

  /** No command is handed over twice, however often it was put back into the queue. */
  lemma ServedAtMostOnce(states: seq<State>, events: seq<Event>, factor: real, i: nat, j: nat)
    requires IsRun(states, events, factor) && i < j < |events|
    requires Serves(events[i]) && Serves(events[j])
    ensures events[i].entry.waitStart != events[j].entry.waitStart
  {
    AccountsAlwaysOk(states, events, factor, i);
    assert StepAt(states, events, i, factor);
    ServedIsFinished(states[i], events[i], states[i + 1], factor);
    var id := events[i].entry.waitStart;
    FinishedForGood(states, events, factor, i + 1, j, id);
    assert StepAt(states, events, j, factor);
    FrontIsHeld(states[j], events[j], states[j + 1], factor);
  }

  lemma FrontIsHeld(s: State, ev: Event, t: State, factor: real)
    requires Step(s, ev, t, factor) && ev.Executed?
    ensures Copies(s, ev.entry.waitStart) >= 1
  {
    SumBound(s.cache, ev.entry, ById(ev.entry.waitStart));
  }

  // ---------------------------------------------------------------- commands dropped untried

  /** The executions after which `internal_execute` does not drop a further command. */
  predicate Succeeds(s: State, v: Verdict)
    requires s.cache != []
  {
    var e := s.cache[0];
    && Living(s, e)
    && match v
       case Reparsed(forServer) => forServer
       case Busy => e.penalty + REQUEUE_PENALTY <= PENALTY_MAX
       case Sent => true
       case WrongOrigin => true
       case Misaddressed => true
       case Evaluated(_, _, _) => true
       case _ => false
  }

  /** What is behind the front once it is out of the way. */
  function Behind(s: State): seq<Entry>
    requires s.cache != []
  {
    if Living(s, s.cache[0]) then s.cache[1..] else WithoutKey(s.cache, s.cache[0].key)
  }

  /** Every command behind the front whose client is attached is still there for its own turn. */
  ghost predicate LivingKept(s: State, v: Verdict)
    requires s.cache != [] && Fits(s, s.cache[0], v)
  {
    forall k :: 0 < k < |s.cache| && Living(s, s.cache[k]) ==> s.cache[k] in ExecuteNext(s, v).cache
  }

  lemma CountedOnce(entries: seq<Entry>, i: nat, j: nat)
    requires i < j < |entries| && Sum(entries, ById(entries[i].waitStart)) <= 1
    ensures entries[i] != entries[j]
  {
    SumTake(entries, i, ById(entries[i].waitStart));
    var rest := entries[..i] + entries[i + 1..];
    assert rest[j - 1] == entries[j];
    SumBound(rest, entries[j], ById(entries[i].waitStart));
  }

  /**
   A failed execution takes the next command of the cache down with it, untried and unanswered: exactly then,
   and only when that command's client is attached, does a living command get lost.
   */
  lemma LivingLostExactly(s: State, v: Verdict)
    requires Inv(s) && s.cache != [] && Fits(s, s.cache[0], v)
    ensures LivingKept(s, v) <==> Succeeds(s, v) || Behind(s) == [] || !Living(s, Behind(s)[0])
  {
    CacheAfter(s, v);
    if Succeeds(s, v) || Behind(s) == [] || !Living(s, Behind(s)[0]) {
      forall k | 0 < k < |s.cache| && Living(s, s.cache[k])
        ensures s.cache[k] in ExecuteNext(s, v).cache
      {
        LivingStaysBehind(s, k);
        assert Behind(s) == [Behind(s)[0]] + Behind(s)[1..];
      }
    } else {
      NextIsLost(s, v);
    }
  }

  lemma CacheAfter(s: State, v: Verdict)
    requires s.cache != [] && Fits(s, s.cache[0], v)
    ensures ExecuteNext(s, v).cache == if Succeeds(s, v) || Behind(s) == [] then Behind(s) else Behind(s)[1..]
  {
    WithoutKeyKeeps(s.cache, s.cache[0].key);
  }

  lemma LivingStaysBehind(s: State, k: nat)
    requires 0 < k < |s.cache| && Living(s, s.cache[k])
    ensures s.cache[k] in Behind(s)
  {
    WithoutKeyKeeps(s.cache, s.cache[0].key);
    assert s.cache[k] == s.cache[1..][k - 1];
  }

  lemma BehindCounts(s: State, id: nat)
    requires s.cache != []
    ensures Sum(Behind(s), ById(id)) <= Sum(s.cache, ById(id))
  {
    WithoutKeySum(s.cache, s.cache[0].key, ById(id));
  }

  lemma BehindStands(s: State) returns (k: nat)
    requires s.cache != [] && Behind(s) != []
    ensures 0 < k < |s.cache| && s.cache[k] == Behind(s)[0]
  {
    WithoutKeyKeeps(s.cache, s.cache[0].key);
    if Living(s, s.cache[0]) {
      k := 1;
    } else {
      assert Behind(s)[0] in Behind(s);
      k :| 0 <= k < |s.cache| && s.cache[k] == Behind(s)[0];
    }
  }

  lemma NextIsLost(s: State, v: Verdict)
    requires Inv(s) && s.cache != [] && Fits(s, s.cache[0], v)
    requires !Succeeds(s, v) && Behind(s) != [] && Living(s, Behind(s)[0])
    ensures !LivingKept(s, v)
  {
    var behind := Behind(s);
    var next := behind[0];
    assert Copies(s, next.waitStart) <= 1;
    BehindCounts(s, next.waitStart);
    CacheAfter(s, v);
    forall m: nat | m < |behind[1..]|
      ensures behind[1..][m] != next
    {
      CountedOnce(behind, 0, m + 1);
    }
    var k := BehindStands(s);
    assert s.cache[k] !in ExecuteNext(s, v).cache;
  }
}
