/**
 A bound on the whole wait of a command: how many transfers of any other command, older or younger, first time
 or put back, can happen while it is in the queue.
 */
module BoundedWait {
  import opened Entities
  import opened Text
  import opened ExecuteQueue
  import opened Pipeline
  import opened Accounting
  import opened Service
  import opened Fairness

  /** A command is put back at most eight times for a busy receiver and once as a command for the server. */
  const MAX_TRANSFERS := PENALTY_MAX / REQUEUE_PENALTY + 2

  function Level(e: Entry): nat {
    if e.server then MAX_TRANSFERS - 1 else e.penalty / REQUEUE_PENALTY
  }

  predicate Moves(ev: Event, ids: set<nat>) {
    ev.Transferred? && ev.entry.waitStart in ids
  }

  /** The number of transfers of these commands among the events from k up to i. */
  function Transfers(events: seq<Event>, k: nat, i: nat, ids: set<nat>): nat
    requires i <= |events|
    decreases i
  {
    if i <= k then 0 else Transfers(events, k, i - 1, ids) + if Moves(events[i - 1], ids) then 1 else 0
  }

  /** The number of times the command is passed over among the events from k up to i. */
  function Passes(states: seq<State>, events: seq<Event>, k: nat, i: nat, id: nat): nat
    requires i <= |events| < |states|
    decreases i
  {
    if i <= k then 0 else Passes(states, events, k, i - 1, id) + if PassesOver(states[i - 1], events[i - 1], id) then 1 else 0
  }

  // ---------------------------------------------------------------- one command's transfers

  /** n transfers are no more than the version of the command that is held allows. */
  ghost predicate Allowed(s: State, id: nat, n: nat) {
    && n <= MAX_TRANSFERS
    && (s.counter <= id ==> n == 0)
    && (forall e :: e in s.queue && e.waitStart == id ==> n <= Level(e))
    && (forall e :: e in s.cache && e.waitStart == id ==> n <= Level(e) + 1)
  }

  lemma AllowedSame(s: State, t: State, id: nat, n: nat)
    requires Same(s, t) && Allowed(t, id, n)
    ensures Allowed(s, id, n)
  {
    SameCounts(s, t);
    assert s.cache == t.cache && s.counter == t.counter;
  }

  lemma NoCopy(entries: seq<Entry>, id: nat)
    requires Sum(entries, ById(id)) == 0
    ensures forall e :: e in entries ==> e.waitStart != id
  {
    forall e | e in entries
      ensures e.waitStart != id
    {
      SumBound(entries, e, ById(id));
    }
  }

  lemma AllowedTransferred(s: State, e: Entry, t: State, factor: real, id: nat, n: nat)
    requires Inv(s) && Step(s, Transferred(e), t, factor) && Allowed(s, id, n)
    ensures Allowed(t, id, n + if e.waitStart == id then 1 else 0)
  {
    TransferCounts(s, e, t, ById(id));
    assert t.cache == s.cache + [e] && t.counter == s.counter;
    assert EntryOk(s, e);
    if e.waitStart == id {
      assert Copies(s, id) <= 1;
      SumBound(s.queue, e, ById(id));
      SumConcat(s.cache, [e], ById(id));
      NoCopy(s.cache, id);
      NoCopy(t.queue, id);
    }
  }

  lemma AllowedExecuted(s: State, v: Verdict, id: nat, n: nat)
    requires Inv(s) && s.cache != [] && Fits(s, s.cache[0], v) && Allowed(s, id, n)
    ensures Allowed(ExecuteNext(s, v), id, n)
  {
    var e := s.cache[0];
    ExecuteShape(s, v, ById(id));
    assert EntryOk(s, e);
    assert forall x :: x in PutBack(s, e, v) ==> Level(x) >= Level(e) + 1 && x.waitStart == e.waitStart;
  }

  lemma AllowedDetached(s: State, h: Handle, id: nat, n: nat)
    requires Allowed(s, id, n)
    ensures Allowed(s.(clients := s.clients - {h}, queue := CancelAll(s.queue, h)), id, n)
  {
    var q := CancelAll(s.queue, h);
    forall e | e in q && e.waitStart == id
      ensures n <= Level(e)
    {
      var i :| 0 <= i < |q| && q[i] == e;
      assert s.queue[i] in s.queue;
    }
  }

  lemma AllowedOpened(s: State, h: Handle, c: Client, next: Handle, id: nat, n: nat)
    requires Allowed(s, id, n)
    ensures Allowed(s.(clients := s.clients[h := c], nextHandle := next), id, n)
  {
  }

  lemma AllowedSubmitted(s: State, e: Entry, id: nat, n: nat)
    requires Inv(s) && e.key.Some? && e.key.value in s.clients && e.penalty == 0 && e.waitStart == s.counter && Allowed(s, id, n)
    ensures Allowed(Submission(s, e), id, n)
  {
  }

  lemma StepAllowed(s: State, ev: Event, t: State, factor: real, id: nat, n: nat)
    requires Inv(s) && Step(s, ev, t, factor) && Allowed(s, id, n)
    ensures Allowed(t, id, n + if Moves(ev, {id}) then 1 else 0)
  {
    hide Allowed, Inv, Same, ExecuteNext, Submission, CancelAll;
    match ev
    case Attached(h) =>
      AllowedOpened(s, h, Client(0, 0, 0), h + 1, id, n);
      AllowedSame(t, s.(clients := s.clients[h := Client(0, 0, 0)], nextHandle := h + 1), id, n);
    case Submitted(e) =>
      AllowedSubmitted(s, e, id, n);
      AllowedSame(t, Submission(s, e), id, n);
    case Rejected(h) =>
      AllowedOpened(s, h, WithErrors(s, h, s.clients[h].errors + 1).clients[h], s.nextHandle, id, n);
      AllowedSame(t, WithErrors(s, h, s.clients[h].errors + 1), id, n);
    case Transferred(e) =>
      AllowedTransferred(s, e, t, factor, id, n);
    case Executed(e, v) =>
      AllowedExecuted(s, v, id, n);
      AllowedSame(t, ExecuteNext(s, v), id, n);
    case Detached(h) =>
      AllowedDetached(s, h, id, n);
      AllowedSame(t, s.(clients := s.clients - {h}, queue := CancelAll(s.queue, h)), id, n);
  }

  lemma RunAllowed(states: seq<State>, events: seq<Event>, factor: real, i: nat, id: nat, n: nat)
    requires IsRun(states, events, factor) && i < |events| && Allowed(states[i], id, n)
    ensures Allowed(states[i + 1], id, n + if Moves(events[i], {id}) then 1 else 0)
  {
    AccountsAlwaysOk(states, events, factor, i);
    assert StepAt(states, events, i, factor);
    StepAllowed(states[i], events[i], states[i + 1], factor, id, n);
  }

  /** No command is transferred more than ten times. */
  lemma {:induction false} TransfersBounded(states: seq<State>, events: seq<Event>, factor: real, k: nat, i: nat, id: nat)
    requires IsRun(states, events, factor) && k <= i <= |events|
    ensures Transfers(events, k, i, {id}) <= MAX_TRANSFERS
    ensures Allowed(states[i], id, Transfers(events, k, i, {id}))
    decreases i
  {
    if i > k {
      TransfersBounded(states, events, factor, k, i - 1, id);
      RunAllowed(states, events, factor, i - 1, id, Transfers(events, k, i - 1, {id}));
    }
  }

  // ---------------------------------------------------------------- everybody else's transfers

  lemma {:induction false} TransfersSplit(events: seq<Event>, k: nat, i: nat, ids: set<nat>, id: nat)
    requires i <= |events| && id in ids
    ensures Transfers(events, k, i, ids) == Transfers(events, k, i, ids - {id}) + Transfers(events, k, i, {id})
    decreases i
  {
    if i > k {
      TransfersSplit(events, k, i - 1, ids, id);
    }
  }

  lemma {:induction false} TransfersOfNone(events: seq<Event>, k: nat, i: nat)
    requires i <= |events|
    ensures Transfers(events, k, i, {}) == 0
    decreases i
  {
    if i > k {
      TransfersOfNone(events, k, i - 1);
    }
  }

  lemma {:induction false} TransfersOfMany(states: seq<State>, events: seq<Event>, factor: real, k: nat, i: nat, ids: set<nat>)
    requires IsRun(states, events, factor) && k <= i <= |events|
    ensures Transfers(events, k, i, ids) <= MAX_TRANSFERS * |ids|
    decreases |ids|
  {
    if ids == {} {
      TransfersOfNone(events, k, i);
    } else {
      var id :| id in ids;
      assert |ids - {id}| == |ids| - 1;
      hide *;
      TransfersSplit(events, k, i, ids, id);
      TransfersBounded(states, events, factor, k, i, id);
      TransfersOfMany(states, events, factor, k, i, ids - {id});
    }
  }

  function Ids(entries: seq<Entry>): (ids: set<nat>)
    ensures |ids| <= |entries|
    ensures forall e :: e in entries ==> e.waitStart in ids
  {
    if entries == [] then {} else {entries[0].waitStart} + Ids(entries[1..])
  }

  /** The start counts from low + 1 to low + count. */
  function Interval(low: nat, count: nat): (ids: set<nat>)
    ensures |ids| <= count
    ensures forall y :: low < y <= low + count ==> y in ids
  {
    if count == 0 then {} else Interval(low, count - 1) + {low + count}
  }

  /** Whoever passes over a command was held when it was submitted, or was submitted soon after. */
  lemma PasserIsKnown(states: seq<State>, events: seq<Event>, factor: real, k: nat, i: nat)
    requires IsRun(states, events, factor) && factor > 0.0
    requires k < |events| && events[k].Submitted? && i < |events|
    requires PassesOver(states[i], events[i], events[k].entry.waitStart)
    ensures var s, e, y := states[k], events[k].entry, events[i].entry.waitStart;
            y in Ids(s.queue + s.cache) || y in Interval(e.waitStart, Reach(e.priority, factor))
  {
    var s, e, y := states[k], events[k].entry, events[i].entry.waitStart;
    PassedOverAfter(states, events, factor, k, i);
    SubmissionStamp(states, events, factor, k);
    if y < e.waitStart && y !in Ids(s.queue + s.cache) {
      NotHeldNeverTransferred(states, events, factor, k, i);
    }
  }

  lemma NotHeldNeverTransferred(states: seq<State>, events: seq<Event>, factor: real, k: nat, i: nat)
    requires IsRun(states, events, factor) && k <= i < |events| && events[i].Transferred?
    requires events[i].entry.waitStart < states[k].counter
    ensures events[i].entry.waitStart in Ids(states[k].queue + states[k].cache)
  {
    var s, y := states[k], events[i].entry.waitStart;
    if y !in Ids(s.queue + s.cache) {
      NotInIds(s, y);
      FinishedForGood(states, events, factor, k, i, y);
      TransferredIsHeld(states, events, factor, i);
    }
  }

  lemma NotInIds(s: State, id: nat)
    requires id !in Ids(s.queue + s.cache)
    ensures Copies(s, id) == 0
  {
    forall e | e in s.queue || e in s.cache
      ensures ById(id)(e) == 0
    {
      assert e in s.queue + s.cache;
    }
    SumZero(s.queue, ById(id));
    SumZero(s.cache, ById(id));
  }

  lemma TransferredIsHeld(states: seq<State>, events: seq<Event>, factor: real, i: nat)
    requires IsRun(states, events, factor) && i < |events| && events[i].Transferred?
    ensures Copies(states[i], events[i].entry.waitStart) >= 1
  {
    assert StepAt(states, events, i, factor);
    SumBound(states[i].queue, events[i].entry, ById(events[i].entry.waitStart));
  }

  lemma {:induction false} PassesAreTransfers(states: seq<State>, events: seq<Event>, k: nat, i: nat, id: nat, ids: set<nat>)
    requires i <= |events| < |states|
    requires forall j :: k <= j < i && PassesOver(states[j], events[j], id) ==> events[j].entry.waitStart in ids
    ensures Passes(states, events, k, i, id) <= Transfers(events, k, i, ids)
    decreases i
  {
    if i > k {
      PassesAreTransfers(states, events, k, i - 1, id, ids);
    }
  }

  /**
   From its submission on, however long the run, a command is passed over at most ten times for every command
   the server held then and for every later one within reach of its priority.
   */
  lemma WaitIsBounded(states: seq<State>, events: seq<Event>, factor: real, k: nat)
    requires IsRun(states, events, factor) && factor > 0.0
    requires k < |events| && events[k].Submitted?
    ensures var s, e := states[k], events[k].entry;
            Passes(states, events, k, |events|, e.waitStart)
              <= MAX_TRANSFERS * (|s.queue| + |s.cache| + Reach(e.priority, factor))
  {
    var s, e := states[k], events[k].entry;
    var company := Company(s, e, factor);
    PassersAreCompany(states, events, factor, k);
    PassesOfCompany(states, events, factor, k, e.waitStart, company);
    Scaled(Passes(states, events, k, |events|, e.waitStart), |company|, |s.queue| + |s.cache| + Reach(e.priority, factor));
  }

  lemma Scaled(n: nat, a: nat, b: nat)
    requires n <= MAX_TRANSFERS * a && a <= b
    ensures n <= MAX_TRANSFERS * b
  {
  }

  lemma PassesOfCompany(states: seq<State>, events: seq<Event>, factor: real, k: nat, id: nat, ids: set<nat>)
    requires IsRun(states, events, factor) && k <= |events|
    requires forall j :: k <= j < |events| && PassesOver(states[j], events[j], id) ==> events[j].entry.waitStart in ids
    ensures Passes(states, events, k, |events|, id) <= MAX_TRANSFERS * |ids|
  {
    PassesAreTransfers(states, events, k, |events|, id, ids);
    TransfersOfMany(states, events, factor, k, |events|, ids);
  }

  /** The commands that may pass over one submitted in state s. */
  ghost function Company(s: State, e: Entry, factor: real): (ids: set<nat>)
    requires factor > 0.0
    ensures |ids| <= |s.queue| + |s.cache| + Reach(e.priority, factor)
  {
    var held, near := Ids(s.queue + s.cache), Interval(e.waitStart, Reach(e.priority, factor));
    assert |held + near| <= |held| + |near|;
    held + near
  }

  lemma PassersAreCompany(states: seq<State>, events: seq<Event>, factor: real, k: nat)
    requires IsRun(states, events, factor) && factor > 0.0
    requires k < |events| && events[k].Submitted?
    ensures forall j :: k <= j < |events| && PassesOver(states[j], events[j], events[k].entry.waitStart) ==>
              events[j].entry.waitStart in Company(states[k], events[k].entry, factor)
  {
    forall j | k <= j < |events| && PassesOver(states[j], events[j], events[k].entry.waitStart)
      ensures events[j].entry.waitStart in Company(states[k], events[k].entry, factor)
    {
      PasserIsKnown(states, events, factor, k, j);
    }
  }
}
