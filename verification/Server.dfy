/**
 The server's command pipeline as it runs: the tables, the queue and the cache are changed in place, and
 everything that happens is one of the steps of `Pipeline`. The ghost fields record the run so far.
 */
module Server {
  import opened Entities
  import opened Text
  import opened ExecuteQueue
  import opened LoadControl
  import opened Pipeline
  import opened Accounting

  /** What a command can still cost: every execution takes something off it. */
  function WeightOf(): Entry -> nat {
    (e: Entry) =>
      if e.server then 1
      else if e.penalty <= PENALTY_MAX then 2 + (PENALTY_MAX - e.penalty) / REQUEUE_PENALTY
      else 2
  }

  function Weight(s: State): nat {
    Sum(s.queue, WeightOf()) + Sum(s.cache, WeightOf())
  }

  /** Executing the front of the cache makes progress, whatever comes of it. */
  lemma ExecuteLightens(s: State, v: Verdict, t: State)
    requires Inv(s) && s.cache != [] && Fits(s, s.cache[0], v) && Same(t, ExecuteNext(s, v))
    ensures Weight(t) < Weight(s)
  {
    var e, u := s.cache[0], ExecuteNext(s, v);
    var back := PutBack(s, e, v);
    assert EntryOk(s, e);
    ExecuteShape(s, v, WeightOf());
    SumConcat(s.queue, back, WeightOf());
    assert back != [] ==> back[1..] == [];
    SumPermutation(t.queue, u.queue, WeightOf());
    assert t.cache == u.cache;
  }

  lemma TransferKeepsWeight(s: State, e: Entry, t: State)
    requires e in s.queue && multiset(s.queue) == multiset(t.queue) + multiset{e} && t.cache == s.cache + [e]
    ensures Weight(t) == Weight(s)
  {
    TransferCounts(s, e, t, WeightOf());
  }

  /** The number of commands taken off the queue. */
  function Moved(events: seq<Event>): nat {
    if events == [] then 0
    else Moved(events[..|events| - 1]) + if events[|events| - 1].Transferred? then 1 else 0
  }

  lemma RunExtends(states: seq<State>, events: seq<Event>, factor: real, ev: Event, t: State)
    requires IsRun(states, events, factor) && Step(states[|states| - 1], ev, t, factor)
    ensures IsRun(states + [t], events + [ev], factor)
    ensures Moved(events + [ev]) == Moved(events) + if ev.Transferred? then 1 else 0
  {
    var states', events' := states + [t], events + [ev];
    assert events'[..|events'| - 1] == events;
    forall i: nat | i < |events'|
      ensures StepAt(states', events', i, factor)
    {
      if i < |events| {
        assert StepAt(states, events, i, factor);
      }
    }
  }

  /** A command for the server that takes it down. */
  predicate Exits(ev: Event) {
    ev.Executed? && ev.verdict.Evaluated? && ev.verdict.exit
  }

  /** Nothing but transfers to the cache and executions happened since, and no more once the server was to exit. */
  ghost predicate OnlyWorked(before: seq<Event>, now: seq<Event>) {
    && |before| <= |now| && now[..|before|] == before
    && (forall i :: |before| <= i < |now| ==> now[i].Transferred? || now[i].Executed?)
    && (forall i :: |before| <= i < |now| - 1 ==> !Exits(now[i]))
  }

  ghost predicate ExitedSince(before: seq<Event>, now: seq<Event>) {
    exists i :: |before| <= i < |now| && Exits(now[i])
  }

  lemma WorkedOn(before: seq<Event>, now: seq<Event>, later: seq<Event>)
    requires OnlyWorked(before, now) && OnlyWorked(now, later) && !ExitedSince(before, now)
    ensures OnlyWorked(before, later) && (ExitedSince(before, later) <==> ExitedSince(now, later))
  {
    assert forall i :: 0 <= i < |now| ==> later[..|now|][i] == later[i];
    assert later[..|before|] == now[..|before|];
    assert forall i :: |before| <= i < |now| ==> !Exits(now[i]);
  }

  lemma NothingWorked(events: seq<Event>)
    ensures OnlyWorked(events, events) && !ExitedSince(events, events)
  {
  }

  lemma TransferWorked(before: seq<Event>, now: seq<Event>, ev: Event)
    requires OnlyWorked(before, now) && !ExitedSince(before, now) && ev.Transferred?
    ensures OnlyWorked(before, now + [ev]) && !ExitedSince(before, now + [ev])
  {
    assert (now + [ev])[..|before|] == now[..|before|];
  }

  datatype Answer = Accepted | Retry | Closed

  class CommandServer {
    const commands: Queue
    const load: Controller
    var clients: map<Handle, Client>
    var cache: seq<Entry>
    var counter: nat
    var nextHandle: Handle
    var exitFlag: bool

    ghost var states: seq<State>
    ghost var events: seq<Event>

    function Current(): State
      reads this, commands
    {
      State(clients, commands.items, cache, counter, nextHandle)
    }

    /** What has happened so far is a run of the pipeline that ends in the present state. */
    ghost predicate Valid()
      reads this, commands, load
    {
      && commands.Valid() && load.Valid()
      && IsRun(states, events, commands.factor)
      && states[|states| - 1] == Current()
      && load.totalRemoved == Moved(events)
    }

    constructor (factor: real, exp: real -> real)
      requires ExpLike(exp)
      ensures Valid() && fresh(commands) && fresh(load) && commands.factor == factor
      ensures Initial(Current()) && events == [] && !exitFlag
    {
      commands := new Queue(factor);
      load := new Controller(exp);
      clients, cache, counter, nextHandle := map[], [], 1, 0;
      exitFlag := false;
      states, events := [State(map[], [], [], 1, 0)], [];
    }

    /** Notes one step of the run. */
    ghost method Record(ev: Event)
      requires IsRun(states, events, commands.factor)
      requires Step(states[|states| - 1], ev, Current(), commands.factor)
      modifies this`states, this`events
      ensures IsRun(states, events, commands.factor) && states[|states| - 1] == Current()
      ensures states == old(states) + [Current()] && events == old(events) + [ev]
      ensures Moved(events) == Moved(old(events)) + if ev.Transferred? then 1 else 0
    {
      RunExtends(states, events, commands.factor, ev, Current());
      states := states + [Current()];
      events := events + [ev];
    }

    lemma CurrentInv()
      requires Valid()
      ensures Inv(Current())
    {
      AccountsAlwaysOk(states, events, commands.factor, |states| - 1);
    }

    // -------------------------------------------------------------- clients

    method AddClient() returns (h: Handle)
      requires Valid()
      modifies this
      ensures Valid() && h !in old(clients) && h in clients
      ensures events == old(events) + [Attached(h)]
      ensures exitFlag == old(exitFlag)
    {
      CurrentInv();
      h := nextHandle;
      clients := clients[h := Client(0, 0, 0)];
      nextHandle := nextHandle + 1;
      Record(Attached(h));
    }

    /** A complete command read from a client by its monitor. */
    method MonitorResponse(h: Handle, priority: nat, server: bool) returns (answer: Answer)
      requires Valid() && h in clients && priority <= PRIORITY_MAX
      modifies this, commands
      ensures Valid() && exitFlag == old(exitFlag)
      ensures answer.Accepted? <==> CanSubmit(old(Current()), h)
      ensures answer.Accepted? ==>
                events == old(events) + [Submitted(Entry(Some(h), priority, 0, old(counter), server))]
      ensures answer.Retry? ==> events == old(events) + [Rejected(h)]
      ensures answer.Closed? ==> Current() == old(Current()) && events == old(events)
      ensures answer.Closed? <==>
                old(clients)[h].errors >= MAX_CLIENT_ERROR || old(clients)[h].invalid >= MAX_CLIENT_INVALID
      ensures answer.Accepted? <==>
                !answer.Closed? && old(clients)[h].waiting + old(clients)[h].errors < MAX_CLIENT_COMMANDS
                && |old(commands.items)| < MAX_QUEUED
    {
      hide IsRun, Heap, Moved, StepAt;
      if clients[h].errors >= MAX_CLIENT_ERROR || clients[h].invalid >= MAX_CLIENT_INVALID {
        return Closed;
      }
      if clients[h].waiting + clients[h].errors >= MAX_CLIENT_COMMANDS {
        clients := clients[h := clients[h].(errors := clients[h].errors + 1)];
        Record(Rejected(h));
        return Retry;
      }
      var e := Entry(Some(h), priority, 0, counter, server);
      var queued := QueueClientCommand(e);
      if queued {
        clients := clients[h := clients[h].(waiting := clients[h].waiting + 1)];
        Record(Submitted(e));
        answer := Accepted;
      } else {
        clients := clients[h := clients[h].(errors := clients[h].errors + 1)];
        Record(Rejected(h));
        answer := Retry;
      }
    }

    method QueueClientCommand(e: Entry) returns (ok: bool)
      requires commands.Valid()
      modifies this`counter, commands
      ensures commands.Valid()
      ensures ok <==> |old(commands.items)| < MAX_QUEUED
      ensures ok ==> multiset(commands.items) == multiset(old(commands.items)) + multiset{e} && counter == old(counter) + 1
      ensures !ok ==> commands.items == old(commands.items) && counter == old(counter)
    {
      if commands.NumberWaiting() >= MAX_QUEUED {
        return false;
      }
      commands.InsertCommand(e, counter);
      counter := counter + 1;
      ok := true;
    }

    method RemoveLocalClient(h: Handle)
      requires Valid() && h in clients
      modifies this, commands
      ensures Valid() && clients == old(clients) - {h} && exitFlag == old(exitFlag)
      ensures events == old(events) + [Detached(h)]
      ensures forall e :: e in commands.items ==> e.key != Some(h)
    {
      commands.RemoveCommands(h);
      clients := clients - {h};
      assert commands.items == CancelAll(old(commands.items), h);
      Record(Detached(h));
    }

    // -------------------------------------------------------------- execution

    method DecrementClientWaiting(key: Option<Handle>) returns (ok: bool)
      modifies this`clients
      ensures ok <==> key.Some? && key.value in old(clients)
      ensures ok ==> var c := old(clients)[key.value];
                     clients == old(clients)[key.value := c.(waiting := Fewer(c.waiting))]
      ensures !ok ==> clients == old(clients)
    {
      if key.None? || key.value !in clients {
        return false;
      }
      var c := clients[key.value];
      if c.waiting > 0 {
        clients := clients[key.value := c.(waiting := c.waiting - 1)];
      } else {
        assert c.(waiting := Fewer(c.waiting)) == c;
        assert clients[key.value := c] == clients;
      }
      ok := true;
    }

    /** Sends the front of the cache on; the verdict is what the tables, the rules and the receiver make of it. */
    method SendCommand(h: Handle, v: Verdict) returns (outcome: bool)
      requires commands.Valid() && cache != [] && h in clients
      requires Fits(Current(), cache[0], v) && !cache[0].server
      modifies this`clients, commands
      ensures commands.Valid()
      ensures Same(Current(), SendClientCommand(old(Current()), h, cache[0], v).0)
      ensures outcome == SendClientCommand(old(Current()), h, cache[0], v).1
    {
      hide Heap, Requeued;
      var e := cache[0];
      var c := clients[h];
      match v {
        case BadOrigin =>
          clients := clients[h := c.(errors := c.errors + 1)];
          outcome := false;
        case BadTarget =>
          clients := clients[h := c.(errors := c.errors + 1)];
          outcome := false;
        case BadPermissions(exempt) =>
          if !exempt {
            clients := clients[h := c.(invalid := c.invalid + 1)];
          }
          outcome := false;
        case Reparsed(forServer) =>
          if !forServer {
            return false;
          }
          Requeue(h, e.(key := Some(h), server := true));
          outcome := true;
        case Busy =>
          if e.penalty + REQUEUE_PENALTY > PENALTY_MAX {
            return false;
          }
          Requeue(h, e.(key := Some(h), penalty := e.penalty + REQUEUE_PENALTY));
          outcome := true;
        case Sent =>
          if c.errors > 0 {
            clients := clients[h := c.(errors := c.errors - 1)];
          } else {
            assert clients[h := c.(errors := 0)] == clients;
          }
          outcome := true;
        case _ =>
          outcome := false;
      }
    }

    /** A version of the command goes back into the queue, and counts for its client again. */
    method Requeue(h: Handle, e: Entry)
      requires commands.Valid() && h in clients
      modifies this`clients, commands
      ensures commands.Valid() && Same(Current(), Requeued(old(Current()), h, e))
    {
      hide Heap;
      commands.InsertCommand(e, counter);
      clients := clients[h := clients[h].(waiting := clients[h].waiting + 1)];
    }

    method EvaluateCommand(h: Handle, v: Verdict) returns (outcome: bool)
      requires commands.Valid() && cache != [] && h in clients
      requires Fits(Current(), cache[0], v) && cache[0].server
      modifies this`clients, this`nextHandle, this`exitFlag
      ensures Current() == EvaluateServer(old(Current()), h, cache[0], v).0
      ensures outcome == EvaluateServer(old(Current()), h, cache[0], v).1
      ensures exitFlag == (old(exitFlag) || (v.Evaluated? && v.exit))
    {
      var c := clients[h];
      match v {
        case WrongOrigin =>
          clients := clients[h := c.(invalid := c.invalid + 1)];
          outcome := true;
        case Misaddressed =>
          clients := clients[h := c.(errors := c.errors + 1)];
          outcome := true;
        case Evaluated(terminated, created, exit) =>
          clients := clients[h := c.(errors := Fewer(c.errors))];
          clients := clients - terminated + Created(nextHandle, created);
          nextHandle := nextHandle + created;
          exitFlag := exitFlag || exit;
          outcome := true;
        case _ =>
          outcome := false;
      }
    }

    method ExecuteSingle(v: Verdict) returns (ok: bool)
      requires commands.Valid() && cache != [] && Fits(Current(), cache[0], v)
      modifies this`clients, this`cache, this`nextHandle, this`exitFlag, commands
      ensures commands.Valid()
      ensures Same(Current(), Pipeline.ExecuteSingle(old(Current()), v).0)
      ensures ok == Pipeline.ExecuteSingle(old(Current()), v).1
      ensures exitFlag == (old(exitFlag) || (v.Evaluated? && v.exit))
    {
      var known := DecrementClientWaiting(cache[0].key);
      if !known {
        cache := WithoutKey(cache, cache[0].key);
        return false;
      }
      var h := cache[0].key.value;
      if !cache[0].server {
        ok := SendCommand(h, v);
      } else {
        ok := EvaluateCommand(h, v);
      }
      cache := cache[1..];
    }

    /** Works off the cache, whatever the outcomes are. */
    method InternalExecute()
      requires Valid()
      modifies this, commands
      ensures Valid()
      ensures !exitFlag ==> cache == []
      ensures OnlyWorked(old(events), events) && forall i :: |old(events)| <= i < |events| ==> events[i].Executed?
      ensures exitFlag <==> old(exitFlag) || ExitedSince(old(events), events)
      ensures old(exitFlag) ==> events == old(events)
      ensures counter == old(counter)
      ensures Weight(Current()) <= Weight(old(Current()))
      ensures old(cache) != [] && !old(exitFlag) ==> Weight(Current()) < Weight(old(Current()))
    {
      hide Weight, IsRun, Heap, Moved;
      while !exitFlag && |cache| != 0
        invariant Valid() && counter == old(counter) && (old(exitFlag) ==> exitFlag && events == old(events))
        invariant OnlyWorked(old(events), events) && forall i :: |old(events)| <= i < |events| ==> events[i].Executed?
        invariant exitFlag <==> old(exitFlag) || ExitedSince(old(events), events)
        invariant Weight(Current()) <= Weight(old(Current()))
        invariant (Current() == old(Current()) && exitFlag == old(exitFlag)) || Weight(Current()) < Weight(old(Current()))
        decreases Weight(Current())
      {
        ghost var before := events;
        ExecuteTurn();
        assert OnlyWorked(before, events);
        WorkedOn(old(events), before, events);
      }
    }

    /** One turn of that loop. */
    method ExecuteTurn()
      requires Valid() && cache != []
      modifies this, commands
      ensures Valid()
      ensures counter == old(counter)
      ensures Weight(Current()) < Weight(old(Current()))
      ensures |events| == |old(events)| + 1 && events[..|old(events)|] == old(events)
      ensures events[|old(events)|].Executed? && events[|old(events)|].entry == old(cache)[0]
      ensures exitFlag <==> old(exitFlag) || Exits(events[|old(events)|])
    {
      ghost var before := Current();
      CurrentInv();
      var v := AnyVerdict();
      var e := cache[0];
      ExecuteAndDrop(v);
      ExecuteLightens(before, v, Current());
      assert Step(before, Executed(e, v), Current(), commands.factor);
      Record(Executed(e, v));
    }

    method ExecuteAndDrop(v: Verdict)
      requires commands.Valid() && cache != [] && Fits(Current(), cache[0], v)
      modifies this`clients, this`cache, this`nextHandle, this`exitFlag, commands
      ensures commands.Valid()
      ensures Same(Current(), ExecuteNext(old(Current()), v))
      ensures exitFlag == (old(exitFlag) || (v.Evaluated? && v.exit))
    {
      var oldSize := |cache|;
      var ok := ExecuteSingle(v);
      if !ok || |cache| == oldSize {
        if |cache| != 0 {
          cache := cache[1..];
        }
      }
    }

    /** Some outcome that the command at the front of the cache can have; nothing more is known of it. */
    method AnyVerdict() returns (v: Verdict)
      requires cache != []
      ensures Fits(Current(), cache[0], v)
      ensures v.Evaluated? ==> v.terminated <= clients.Keys
    {
      if cache[0].key.None? || cache[0].key.value !in clients {
        v := Orphan;
      } else if cache[0].server {
        v :| Fits(Current(), cache[0], v) && (v.Evaluated? ==> v.terminated <= clients.Keys);
      } else {
        v :| Fits(Current(), cache[0], v) && !v.Evaluated?;
      }
    }

    /** Moves the next batch to the cache: exactly as many commands as the load allows, the best ones first. */
    method ServerExecuteNext(now: real) returns (any: bool)
      requires Valid()
      modifies this, commands, load
      ensures Valid()
      ensures any <==> old(commands.items) != [] && cache != []
      ensures old(commands.items) != [] ==>
                && |cache| == |old(cache)| + load.currentTaken && load.currentTaken >= 1
                && |commands.items| == |old(commands.items)| - load.currentTaken
      ensures counter == old(counter) && exitFlag == old(exitFlag)
      ensures Weight(Current()) == Weight(old(Current()))
      ensures old(commands.items) == [] ==> Current() == old(Current()) && events == old(events)
      ensures OnlyWorked(old(events), events) && !ExitedSince(old(events), events)
      ensures old(commands.items) != [] ==> |events| == |old(events)| + load.currentTaken
    {
      hide Heap, Moved, Weight, OnlyWorked, ExitedSince;
      NothingWorked(events);
      if commands.NumberWaiting() == 0 {
        return false;
      }
      var cacheSize: nat := load.CalculateExecution(commands.NumberWaiting(), now);
      while cacheSize != 0
        invariant commands.Valid() && load.Valid() && load.currentTaken >= 1
        invariant IsRun(states, events, commands.factor) && states[|states| - 1] == Current()
        invariant load.totalRemoved == Moved(events) + cacheSize
        invariant |cache| + cacheSize == |old(cache)| + load.currentTaken
        invariant |commands.items| + load.currentTaken == |old(commands.items)| + cacheSize
        invariant cacheSize <= |commands.items|
        invariant counter == old(counter) && exitFlag == old(exitFlag)
        invariant Weight(Current()) == Weight(old(Current()))
        invariant OnlyWorked(old(events), events) && !ExitedSince(old(events), events)
        invariant |events| + cacheSize == |old(events)| + load.currentTaken
      {
        cacheSize := cacheSize - 1;
        ghost var before := events;
        ghost var ev := TransferNext();
        TransferWorked(old(events), before, ev);
      }
      any := |cache| != 0;
    }

    /** One turn of that loop: the best command goes to the end of the cache. */
    method TransferNext() returns (ghost ev: Event)
      requires commands.Valid() && commands.items != []
      requires IsRun(states, events, commands.factor) && states[|states| - 1] == Current()
      modifies this`cache, this`states, this`events, commands
      ensures commands.Valid()
      ensures IsRun(states, events, commands.factor) && states[|states| - 1] == Current()
      ensures ev.Transferred? && events == old(events) + [ev] && cache == old(cache) + [ev.entry]
      ensures Moved(events) == Moved(old(events)) + 1
      ensures |commands.items| == |old(commands.items)| - 1
      ensures Weight(Current()) == Weight(old(Current()))
    {
      hide Heap, Moved, Weight;
      ghost var before := Current();
      var top := commands.TransferTopCommand(counter);
      if top.None? {
        assert false;
        return;
      }
      cache := cache + [top.value];
      TransferKeepsItems(before, top.value, Current());
      ev := Transferred(top.value);
      Record(ev);
    }

    lemma TransferKeepsItems(s: State, e: Entry, t: State)
      requires multiset(s.queue) == multiset(t.queue) + multiset{e} && t.cache == s.cache + [e]
      ensures e in s.queue && |t.queue| == |s.queue| - 1 && Weight(t) == Weight(s)
    {
      assert e in multiset(s.queue);
      assert |multiset(s.queue)| == |multiset(t.queue)| + 1;
      TransferKeepsWeight(s, e, t);
    }

    /**
     The loop of the execution thread: with no new arrivals it ends, and it ends with nothing left in the queue
     or the cache unless the server was told to exit.
     */
    method ExecuteWaiting()
      requires Valid() && cache == []
      modifies this, commands, load
      ensures Valid()
      ensures OnlyWorked(old(events), events)
      ensures exitFlag <==> old(exitFlag) || ExitedSince(old(events), events)
      ensures old(exitFlag) ==> events == old(events)
      ensures !exitFlag ==> commands.items == [] && cache == []
    {
      while !exitFlag && commands.NumberWaiting() != 0
        invariant Valid()
        invariant OnlyWorked(old(events), events)
        invariant exitFlag <==> old(exitFlag) || ExitedSince(old(events), events)
        invariant old(exitFlag) ==> events == old(events)
        invariant !exitFlag ==> cache == []
        decreases Weight(Current())
      {
        var now: real := *;
        ghost var before := events;
        var any := ServerExecuteNext(now);
        WorkedOn(old(events), before, events);
        if !any {
          break;
        }
        before := events;
        InternalExecute();
        WorkedOn(old(events), before, events);
      }
    }
  }
}
