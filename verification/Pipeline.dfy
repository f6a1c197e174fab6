/**
 The life of commands on the server, as atomic steps over whole runs: clients submit, the server moves
 batches from its queue to its cache and executes the cache from the front, clients come and go
 (libs/server/local-client.cpp, api-server.cpp, execute-thread.cpp, client-list.cpp).
 */
module Pipeline {
  import opened Entities
  import opened Text
  import opened ExecuteQueue

  // Settings, of any value; they stay the same during a run.
  const MAX_CLIENT_ERROR: nat
  const MAX_CLIENT_INVALID: nat
  const MAX_CLIENT_COMMANDS: nat
  const MAX_QUEUED: nat

  const REQUEUE_PENALTY := 32
  const PENALTY_MAX := 256
  const PRIORITY_MAX := 255

  datatype Client = Client(waiting: nat, errors: nat, invalid: nat)

  datatype State = State(
    clients: map<Handle, Client>,
    queue: seq<Entry>,
    cache: seq<Entry>,
    counter: nat,
    nextHandle: Handle)

  /** What executing a command comes to, as far as the world outside the queue decides it. */
  datatype Verdict =
    // a command for another client
    | BadOrigin
    | BadTarget
    | BadPermissions(exempt: bool)
    | Refused
    | Reparsed(forServer: bool)
    | Broken
    | Busy
    | Sent
    // a command for the server
    | NotPermitted
    | WrongOrigin
    | Misaddressed
    | Evaluated(terminated: set<Handle>, created: nat, exit: bool)
    // a command whose client is gone
    | Orphan

  datatype Event =
    | Attached(handle: Handle)
    | Submitted(entry: Entry)
    | Rejected(handle: Handle)
    | Transferred(entry: Entry)
    | Executed(entry: Entry, verdict: Verdict)
    | Detached(handle: Handle)

  // ---------------------------------------------------------------- execution of one command

  function Fewer(n: nat): nat {
    if n > 0 then n - 1 else 0
  }

  function WithErrors(s: State, h: Handle, errors: nat): State
    requires h in s.clients
  {
    s.(clients := s.clients[h := s.clients[h].(errors := errors)])
  }

  function WithInvalid(s: State, h: Handle): State
    requires h in s.clients
  {
    s.(clients := s.clients[h := s.clients[h].(invalid := s.clients[h].invalid + 1)])
  }

  function Requeued(s: State, h: Handle, e: Entry): State
    requires h in s.clients
  {
    s.(queue := s.queue + [e],
       clients := s.clients[h := s.clients[h].(waiting := s.clients[h].waiting + 1)])
  }

  /** Sending a command on: false when the sender gets a negative answer. */
  function SendClientCommand(s: State, h: Handle, e: Entry, v: Verdict): (State, bool)
    requires h in s.clients && Fits(s, e, v) && !e.server
  {
    match v
    case BadOrigin => (WithErrors(s, h, s.clients[h].errors + 1), false)
    case BadTarget => (WithErrors(s, h, s.clients[h].errors + 1), false)
    case BadPermissions(exempt) => (if exempt then s else WithInvalid(s, h), false)
    case Reparsed(forServer) =>
      if forServer then (Requeued(s, h, e.(key := Some(h), server := true)), true) else (s, false)
    case Busy =>
      if e.penalty + REQUEUE_PENALTY > PENALTY_MAX then (s, false)
      else (Requeued(s, h, e.(key := Some(h), penalty := e.penalty + REQUEUE_PENALTY)), true)
    case Sent => (WithErrors(s, h, Fewer(s.clients[h].errors)), true)
    case _ => (s, false)
  }

  /** Handles given to clients that are created while a command is evaluated. */
  function Created(first: Handle, count: nat): (r: map<Handle, Client>)
    ensures forall h :: h in r <==> first <= h < first + count
    ensures forall h :: h in r ==> r[h] == Client(0, 0, 0)
  {
    if count == 0 then map[] else Created(first, count - 1)[first + count - 1 := Client(0, 0, 0)]
  }

  function EvaluateServer(s: State, h: Handle, e: Entry, v: Verdict): (State, bool)
    requires h in s.clients && Fits(s, e, v) && e.server
  {
    match v
    case WrongOrigin => (WithInvalid(s, h), true)
    case Misaddressed => (WithErrors(s, h, s.clients[h].errors + 1), true)
    case Evaluated(terminated, created, _) =>
      var t := WithErrors(s, h, Fewer(s.clients[h].errors));
      (t.(clients := t.clients - terminated + Created(t.nextHandle, created), nextHandle := t.nextHandle + created), true)
    case _ => (s, false)
  }

  predicate Living(s: State, e: Entry) {
    e.key.Some? && e.key.value in s.clients
  }

  /** The outcome is one of those the execution of this command can have. */
  predicate Fits(s: State, e: Entry, v: Verdict) {
    if !Living(s, e) then v.Orphan?
    else if e.server then v.NotPermitted? || v.WrongOrigin? || v.Misaddressed? || v.Evaluated?
    else !(v.NotPermitted? || v.WrongOrigin? || v.Misaddressed? || v.Evaluated? || v.Orphan?)
  }

  function WithoutKey(entries: seq<Entry>, key: Option<Handle>): (r: seq<Entry>)
    ensures |r| <= |entries|
  {
    if entries == [] then []
    else if entries[0].key == key then WithoutKey(entries[1..], key)
    else [entries[0]] + WithoutKey(entries[1..], key)
  }

  /** `execute_single` on the front of the cache. */
  function ExecuteSingle(s: State, v: Verdict): (State, bool)
    requires s.cache != [] && Fits(s, s.cache[0], v)
  {
    var e := s.cache[0];
    if !Living(s, e) then
      (s.(cache := WithoutKey(s.cache, e.key)), false)
    else
      var h := e.key.value;
      var client := s.clients[h];
      var t := s.(clients := s.clients[h := client.(waiting := Fewer(client.waiting))]);
      var (u, ok) := if e.server then EvaluateServer(t, h, e, v) else SendClientCommand(t, h, e, v);
      (u.(cache := s.cache[1..]), ok)
  }

  /** One turn of `internal_execute`: after a failure one more command is dropped from the cache. */
  function ExecuteNext(s: State, v: Verdict): State
    requires s.cache != [] && Fits(s, s.cache[0], v)
  {
    var (t, ok) := ExecuteSingle(s, v);
    if (!ok || |t.cache| == |s.cache|) && t.cache != [] then t.(cache := t.cache[1..]) else t
  }

  // ---------------------------------------------------------------- steps and runs

  function CancelAll(entries: seq<Entry>, h: Handle): (r: seq<Entry>)
    ensures |r| == |entries|
    ensures forall i :: 0 <= i < |r| ==> r[i] == Cancelled(entries[i], h)
  {
    seq(|entries|, i requires 0 <= i < |entries| => Cancelled(entries[i], h))
  }

  /** The states differ at most in the order in which the heap keeps the queue. */
  predicate Same(s: State, t: State) {
    s.(queue := []) == t.(queue := []) && multiset(s.queue) == multiset(t.queue)
  }

  predicate CanSubmit(s: State, h: Handle) {
    && h in s.clients
    && s.clients[h].errors < MAX_CLIENT_ERROR && s.clients[h].invalid < MAX_CLIENT_INVALID
    && s.clients[h].waiting + s.clients[h].errors < MAX_CLIENT_COMMANDS
    && |s.queue| < MAX_QUEUED
  }

  function Submission(s: State, e: Entry): State
    requires e.key.Some? && e.key.value in s.clients
  {
    var h := e.key.value;
    s.(queue := s.queue + [e],
       clients := s.clients[h := s.clients[h].(waiting := s.clients[h].waiting + 1)],
       counter := s.counter + 1)
  }

  ghost predicate Step(s: State, ev: Event, t: State, factor: real) {
    match ev
    case Attached(h) =>
      h == s.nextHandle && Same(t, s.(clients := s.clients[h := Client(0, 0, 0)], nextHandle := h + 1))
    case Submitted(e) =>
      && e.key.Some? && CanSubmit(s, e.key.value)
      && e.penalty == 0 && e.priority <= PRIORITY_MAX && e.waitStart == s.counter
      && Same(t, Submission(s, e))
    case Rejected(h) =>
      h in s.clients && Same(t, WithErrors(s, h, s.clients[h].errors + 1))
    case Transferred(e) =>
      && e in s.queue && (forall x :: x in s.queue ==> CheckPriority(e, x, s.counter, factor))
      && multiset(s.queue) == multiset(t.queue) + multiset{e}
      && t.(queue := []) == s.(queue := [], cache := s.cache + [e])
    case Executed(e, v) =>
      && s.cache != [] && e == s.cache[0] && Fits(s, e, v)
      && (v.Evaluated? ==> v.terminated <= s.clients.Keys)
      && Same(t, ExecuteNext(s, v))
    case Detached(h) =>
      h in s.clients && Same(t, s.(clients := s.clients - {h}, queue := CancelAll(s.queue, h)))
  }

  ghost predicate Initial(s: State) {
    s == State(map[], [], [], 1, 0)
  }

  ghost predicate StepAt(states: seq<State>, events: seq<Event>, i: nat, factor: real)
    requires i < |events| < |states|
  {
    Step(states[i], events[i], states[i + 1], factor)
  }

  ghost predicate IsRun(states: seq<State>, events: seq<Event>, factor: real) {
    && |states| == |events| + 1
    && Initial(states[0])
    && forall i: nat {:trigger StepAt(states, events, i, factor)} :: i < |events| ==> StepAt(states, events, i, factor)
  }

  // ---------------------------------------------------------------- counting commands

  function Sum(entries: seq<Entry>, f: Entry -> nat): nat {
    if entries == [] then 0 else f(entries[0]) + Sum(entries[1..], f)
  }

  lemma {:induction false} SumConcat(a: seq<Entry>, b: seq<Entry>, f: Entry -> nat)
    ensures Sum(a + b, f) == Sum(a, f) + Sum(b, f)
  {
    if a == [] {
      assert a + b == b;
    } else {
      assert (a + b)[1..] == a[1..] + b;
      SumConcat(a[1..], b, f);
    }
  }

  lemma SumFirst(x: Entry, rest: seq<Entry>, f: Entry -> nat)
    ensures Sum([x] + rest, f) == f(x) + Sum(rest, f)
  {
    assert ([x] + rest)[1..] == rest;
  }

  lemma SumTake(a: seq<Entry>, i: nat, f: Entry -> nat)
    requires i < |a|
    ensures Sum(a, f) == f(a[i]) + Sum(a[..i] + a[i + 1..], f)
  {
    var x, front, back := a[i], a[..i], a[i + 1..];
    assert a == front + ([x] + back);
    SumFirst(x, back, f);
    hide *;
    SumConcat(front, [x] + back, f);
    SumConcat(front, back, f);
  }

  lemma FirstMultiset(a: seq<Entry>)
    requires a != []
    ensures multiset(a[1..]) == multiset(a) - multiset{a[0]}
  {
    assert a == [a[0]] + a[1..];
  }

  lemma TakeMultiset(a: seq<Entry>, i: nat)
    requires i < |a|
    ensures multiset(a[..i] + a[i + 1..]) == multiset(a) - multiset{a[i]}
  {
    assert a == a[..i] + [a[i]] + a[i + 1..];
  }

  lemma {:induction false} SumPermutation(a: seq<Entry>, b: seq<Entry>, f: Entry -> nat)
    requires multiset(a) == multiset(b)
    ensures Sum(a, f) == Sum(b, f)
    decreases |a|
  {
    if a == [] {
      assert |multiset(b)| == 0;
    } else {
      var x, rest := a[0], a[1..];
      assert x in multiset(a);
      var i :| 0 <= i < |b| && b[i] == x;
      var other := b[..i] + b[i + 1..];
      assert Sum(a, f) == f(x) + Sum(rest, f);
      FirstMultiset(a);
      TakeMultiset(b, i);
      SumTake(b, i, f);
      hide *;
      SumPermutation(rest, other, f);
    }
  }

  lemma {:induction false} SumBound(entries: seq<Entry>, e: Entry, f: Entry -> nat)
    requires e in entries
    ensures Sum(entries, f) >= f(e)
  {
    var i :| 0 <= i < |entries| && entries[i] == e;
    SumTake(entries, i, f);
  }

  lemma {:induction false} SumZero(entries: seq<Entry>, f: Entry -> nat)
    requires forall e :: e in entries ==> f(e) == 0
    ensures Sum(entries, f) == 0
  {
    if entries != [] {
      assert forall e :: e in entries[1..] ==> e in entries;
      SumZero(entries[1..], f);
    }
  }

  function ByKey(h: Handle): Entry -> nat {
    (e: Entry) => if e.key == Some(h) then 1 else 0
  }

  function ById(id: nat): Entry -> nat {
    (e: Entry) => if e.waitStart == id then 1 else 0
  }

  /** Commands of a client that the server still holds. */
  function Pending(s: State, h: Handle): nat {
    Sum(s.queue, ByKey(h)) + Sum(s.cache, ByKey(h))
  }

  /** Copies of one command that the server still holds; its start count is its identity. */
  function Copies(s: State, id: nat): nat {
    Sum(s.queue, ById(id)) + Sum(s.cache, ById(id))
  }
}
