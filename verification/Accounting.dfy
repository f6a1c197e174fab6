/**
 What every run of the pipeline keeps: the per-client accounts, the identity of commands, and who is served.
 */
module Accounting {
  import opened Entities
  import opened Text
  import opened ExecuteQueue
  import opened Pipeline

  ghost predicate EntryOk(s: State, e: Entry) {
    && e.priority <= PRIORITY_MAX
    && e.penalty <= PENALTY_MAX && e.penalty % REQUEUE_PENALTY == 0
    && 0 < e.waitStart < s.counter
    && (e.key.Some? ==> e.key.value < s.nextHandle)
  }

  ghost predicate EntriesOk(s: State) {
    && (forall e :: e in s.queue ==> EntryOk(s, e))
    && (forall e :: e in s.cache ==> EntryOk(s, e))
  }

  /** Every client's commands are counted, and no more than it may have. */
  ghost predicate AccountsOk(s: State) {
    forall h :: h in s.clients ==>
      h < s.nextHandle && Pending(s, h) <= s.clients[h].waiting <= MAX_CLIENT_COMMANDS
  }

  /** No command is held twice. */
  ghost predicate Unduplicated(s: State) {
    forall id {:trigger Copies(s, id)} :: Copies(s, id) <= 1
  }

  ghost predicate Inv(s: State) {
    s.counter > 0 && EntriesOk(s) && AccountsOk(s) && Unduplicated(s)
  }

  // ---------------------------------------------------------------- counts under a step

  lemma SameCounts(s: State, t: State)
    requires Same(s, t)
    ensures forall h :: Pending(s, h) == Pending(t, h)
    ensures forall id :: Copies(s, id) == Copies(t, id)
    ensures forall e :: e in s.queue <==> e in t.queue
    ensures |s.queue| == |t.queue|
  {
    assert s.cache == t.cache;
    forall h
      ensures Pending(s, h) == Pending(t, h)
    {
      SumPermutation(s.queue, t.queue, ByKey(h));
    }
    forall id
      ensures Copies(s, id) == Copies(t, id)
    {
      SumPermutation(s.queue, t.queue, ById(id));
    }
    assert forall e :: e in s.queue <==> e in multiset(s.queue);
    assert |s.queue| == |multiset(s.queue)|;
  }

  lemma InvSame(s: State, t: State)
    requires Same(s, t) && Inv(t)
    ensures Inv(s)
  {
    SameCounts(s, t);
    assert s.clients == t.clients && s.counter == t.counter && s.nextHandle == t.nextHandle && s.cache == t.cache;
    forall e | e in s.queue
      ensures EntryOk(s, e)
    {
      assert EntryOk(t, e);
    }
    forall e | e in s.cache
      ensures EntryOk(s, e)
    {
      assert EntryOk(t, e);
    }
  }

  /** What an execution puts back into the queue. */
  function PutBack(s: State, e: Entry, v: Verdict): (r: seq<Entry>)
    requires Fits(s, e, v)
    ensures |r| <= 1
    ensures r != [] ==> !e.server && r[0].key == e.key && r[0].waitStart == e.waitStart && r[0].priority == e.priority
    ensures r != [] ==> v.Reparsed? || v.Busy?
  {
    match v
    case Reparsed(forServer) => if forServer then [e.(server := true)] else []
    case Busy =>
      if e.penalty + REQUEUE_PENALTY > PENALTY_MAX then [] else [e.(penalty := e.penalty + REQUEUE_PENALTY)]
    case _ => []
  }

  lemma {:induction false} WithoutKeyKeeps(entries: seq<Entry>, key: Option<Handle>)
    ensures forall e :: e in WithoutKey(entries, key) <==> e in entries && e.key != key
    ensures entries != [] && entries[0].key == key ==> |WithoutKey(entries, key)| < |entries|
  {
    if entries != [] {
      WithoutKeyKeeps(entries[1..], key);
      assert entries == [entries[0]] + entries[1..];
    }
  }

  lemma {:induction false} WithoutKeySum(entries: seq<Entry>, key: Option<Handle>, f: Entry -> nat)
    ensures Sum(WithoutKey(entries, key), f) <= Sum(entries, f)
    ensures entries != [] && entries[0].key == key ==>
              Sum(WithoutKey(entries, key), f) + f(entries[0]) <= Sum(entries, f)
  {
    if entries != [] {
      WithoutKeySum(entries[1..], key, f);
      if entries[0].key != key {
        var rest := WithoutKey(entries[1..], key);
        assert ([entries[0]] + rest)[1..] == rest;
      }
    }
  }

  lemma DropSum(entries: seq<Entry>, f: Entry -> nat)
    requires entries != []
    ensures Sum(entries[1..], f) + f(entries[0]) == Sum(entries, f)
    ensures forall e :: e in entries[1..] ==> e in entries
  {
  }

  /** One execution takes the front out of the cache and may put one version of it back into the queue. */
  lemma ExecuteShape(s: State, v: Verdict, f: Entry -> nat)
    requires s.cache != [] && Fits(s, s.cache[0], v)
    ensures var e, t := s.cache[0], ExecuteNext(s, v);
            && t.queue == s.queue + PutBack(s, e, v)
            && t.counter == s.counter
            && Sum(t.cache, f) + f(e) <= Sum(s.cache, f)
            && |t.cache| < |s.cache|
            && forall x :: x in t.cache ==> x in s.cache
  {
    var e, t := s.cache[0], ExecuteNext(s, v);
    var (u, ok) := ExecuteSingle(s, v);
    DropSum(s.cache, f);
    if Living(s, e) {
      assert u.cache == s.cache[1..];
    } else {
      assert u.cache == WithoutKey(s.cache, e.key);
      WithoutKeyKeeps(s.cache, e.key);
      WithoutKeySum(s.cache, e.key, f);
    }
    if u.cache != [] {
      DropSum(u.cache, f);
    }
    assert t.queue == u.queue;
    PutBackQueue(s, v);
  }

  lemma PutBackQueue(s: State, v: Verdict)
    requires s.cache != [] && Fits(s, s.cache[0], v)
    ensures ExecuteSingle(s, v).0.queue == s.queue + PutBack(s, s.cache[0], v)
    ensures ExecuteSingle(s, v).0.counter == s.counter
  {
    var e := s.cache[0];
    assert Living(s, e) ==> e.(key := Some(e.key.value)) == e;
  }

  /** The accounts of the attached clients after one execution. */
  lemma ExecuteClients(s: State, v: Verdict)
    requires s.cache != [] && Fits(s, s.cache[0], v)
    requires forall h :: h in s.clients ==> h < s.nextHandle
    ensures var e, t := s.cache[0], ExecuteNext(s, v);
            && s.nextHandle <= t.nextHandle
            && (forall h :: h in t.clients ==> h < t.nextHandle)
            && (forall h :: h in t.clients && h !in s.clients ==> s.nextHandle <= h && t.clients[h].waiting == 0)
            && (forall h :: h in t.clients && h in s.clients && e.key != Some(h) ==>
                  t.clients[h].waiting == s.clients[h].waiting)
            && (forall h :: h in t.clients && h in s.clients && e.key == Some(h) ==>
                  t.clients[h].waiting == Fewer(s.clients[h].waiting) + |PutBack(s, e, v)|)
  {
    var e, t := s.cache[0], ExecuteNext(s, v);
    assert t.clients == ExecuteSingle(s, v).0.clients && t.nextHandle == ExecuteSingle(s, v).0.nextHandle;
  }

  // ---------------------------------------------------------------- preservation, step by step

  lemma InvAttached(s: State, h: Handle)
    requires Inv(s) && h == s.nextHandle
    ensures Inv(s.(clients := s.clients[h := Client(0, 0, 0)], nextHandle := h + 1))
  {
    var t := s.(clients := s.clients[h := Client(0, 0, 0)], nextHandle := h + 1);
    CountsUnchanged(s, t);
    NoneOfUnknown(s, h);
    assert forall e :: EntryOk(s, e) ==> EntryOk(t, e);
  }

  /** No command is held for a handle that was not given out yet. */
  lemma NoneOfUnknown(s: State, h: Handle)
    requires EntriesOk(s) && s.nextHandle <= h
    ensures Pending(s, h) == 0
  {
    forall e | e in s.queue
      ensures ByKey(h)(e) == 0
    {
      assert EntryOk(s, e);
    }
    forall e | e in s.cache
      ensures ByKey(h)(e) == 0
    {
      assert EntryOk(s, e);
    }
    SumZero(s.queue, ByKey(h));
    SumZero(s.cache, ByKey(h));
  }

  lemma CountsUnchanged(s: State, t: State)
    requires s.queue == t.queue && s.cache == t.cache
    ensures forall h :: Pending(s, h) == Pending(t, h)
    ensures forall id :: Copies(s, id) == Copies(t, id)
  {
  }

  lemma InvSubmitted(s: State, e: Entry)
    requires Inv(s) && e.key.Some? && CanSubmit(s, e.key.value)
    requires e.penalty == 0 && e.priority <= PRIORITY_MAX && e.waitStart == s.counter
    ensures Inv(Submission(s, e))
  {
    var t := Submission(s, e);
    assert forall x :: EntryOk(s, x) ==> EntryOk(t, x);
    assert EntryOk(t, e);
    forall h | h in t.clients
      ensures Pending(t, h) <= t.clients[h].waiting <= MAX_CLIENT_COMMANDS
    {
      SumConcat(s.queue, [e], ByKey(h));
      assert Pending(s, h) <= s.clients[h].waiting;
    }
    forall id
      ensures Copies(t, id) <= 1
    {
      SumConcat(s.queue, [e], ById(id));
      assert Copies(s, id) <= 1;
      if id == s.counter {
        NoneOfFuture(s);
      }
    }
  }

  lemma NoneOfFuture(s: State)
    requires EntriesOk(s)
    ensures Copies(s, s.counter) == 0
  {
    forall e | e in s.queue
      ensures ById(s.counter)(e) == 0
    {
      assert EntryOk(s, e);
    }
    forall e | e in s.cache
      ensures ById(s.counter)(e) == 0
    {
      assert EntryOk(s, e);
    }
    SumZero(s.queue, ById(s.counter));
    SumZero(s.cache, ById(s.counter));
  }

  lemma TransferCounts(s: State, e: Entry, t: State, f: Entry -> nat)
    requires e in s.queue && multiset(s.queue) == multiset(t.queue) + multiset{e} && t.cache == s.cache + [e]
    ensures Sum(s.queue, f) + Sum(s.cache, f) == Sum(t.queue, f) + Sum(t.cache, f)
    ensures forall x :: x in t.queue ==> x in s.queue
  {
    assert multiset(t.queue + [e]) == multiset(s.queue);
    SumPermutation(s.queue, t.queue + [e], f);
    SumConcat(t.queue, [e], f);
    SumConcat(s.cache, [e], f);
    forall x | x in t.queue
      ensures x in s.queue
    {
      assert x in multiset(s.queue);
    }
  }

  lemma InvTransferred(s: State, e: Entry, t: State)
    requires Inv(s) && e in s.queue && multiset(s.queue) == multiset(t.queue) + multiset{e}
    requires t.(queue := []) == s.(queue := [], cache := s.cache + [e])
    ensures Inv(t)
  {
    assert t.clients == s.clients && t.counter == s.counter && t.nextHandle == s.nextHandle && t.cache == s.cache + [e];
    TransferCounts(s, e, t, ByKey(0));
    assert forall x :: EntryOk(s, x) ==> EntryOk(t, x);
    forall h | h in t.clients
      ensures Pending(t, h) == Pending(s, h)
    {
      TransferCounts(s, e, t, ByKey(h));
    }
    forall id
      ensures Copies(t, id) == Copies(s, id)
    {
      TransferCounts(s, e, t, ById(id));
    }
  }

  lemma ExecutePending(s: State, v: Verdict, h: Handle)
    requires s.cache != [] && Fits(s, s.cache[0], v)
    ensures var e, t := s.cache[0], ExecuteNext(s, v);
            && (e.key != Some(h) ==> Pending(t, h) <= Pending(s, h))
            && (e.key == Some(h) ==> Pending(t, h) + 1 <= Pending(s, h) + |PutBack(s, e, v)|)
  {
    var e := s.cache[0];
    ExecuteShape(s, v, ByKey(h));
    SumConcat(s.queue, PutBack(s, e, v), ByKey(h));
    assert PutBack(s, e, v) != [] ==> PutBack(s, e, v)[1..] == [];
  }

  lemma ExecuteCopies(s: State, v: Verdict, id: nat)
    requires s.cache != [] && Fits(s, s.cache[0], v)
    ensures var e, t := s.cache[0], ExecuteNext(s, v);
            && Copies(t, id) <= Copies(s, id)
            && (e.waitStart == id && PutBack(s, e, v) == [] ==> Copies(t, id) + 1 <= Copies(s, id))
  {
    var e := s.cache[0];
    ExecuteShape(s, v, ById(id));
    SumConcat(s.queue, PutBack(s, e, v), ById(id));
    assert PutBack(s, e, v) != [] ==> PutBack(s, e, v)[1..] == [];
  }

  lemma InvExecuted(s: State, v: Verdict)
    requires Inv(s) && s.cache != [] && Fits(s, s.cache[0], v)
    ensures Inv(ExecuteNext(s, v))
  {
    var e, t := s.cache[0], ExecuteNext(s, v);
    ExecuteShape(s, v, ByKey(0));
    ExecuteClients(s, v);
    assert EntryOk(s, e);
    assert forall x :: EntryOk(s, x) ==> EntryOk(t, x);
    assert forall x :: x in PutBack(s, e, v) ==> EntryOk(t, x);
    forall h | h in t.clients
      ensures Pending(t, h) <= t.clients[h].waiting <= MAX_CLIENT_COMMANDS
    {
      ExecutePending(s, v, h);
      if h in s.clients {
        assert Pending(s, h) <= s.clients[h].waiting <= MAX_CLIENT_COMMANDS;
        if e.key == Some(h) {
          SumBound(s.cache, e, ByKey(h));
        }
      } else {
        NoneOfUnknown(s, h);
      }
    }
    forall id
      ensures Copies(t, id) <= 1
    {
      assert Copies(s, id) <= 1;
      ExecuteCopies(s, v, id);
    }
  }

  lemma {:induction false} CancelSum(entries: seq<Entry>, h: Handle, f: Entry -> nat)
    requires forall e :: f(Cancelled(e, h)) <= f(e)
    ensures Sum(CancelAll(entries, h), f) <= Sum(entries, f)
  {
    if entries != [] {
      assert CancelAll(entries, h)[1..] == CancelAll(entries[1..], h);
      CancelSum(entries[1..], h, f);
    }
  }

  lemma InvDetached(s: State, h: Handle)
    requires Inv(s) && h in s.clients
    ensures Inv(s.(clients := s.clients - {h}, queue := CancelAll(s.queue, h)))
  {
    var t := s.(clients := s.clients - {h}, queue := CancelAll(s.queue, h));
    forall x | x in t.queue
      ensures EntryOk(t, x)
    {
      var i :| 0 <= i < |t.queue| && t.queue[i] == x;
      assert EntryOk(s, s.queue[i]);
    }
    assert forall x :: EntryOk(s, x) ==> EntryOk(t, x);
    forall k | k in t.clients
      ensures Pending(t, k) <= Pending(s, k)
    {
      CancelSum(s.queue, h, ByKey(k));
    }
    forall id
      ensures Copies(t, id) <= Copies(s, id) <= 1
    {
      CancelSum(s.queue, h, ById(id));
    }
  }

  lemma StepKeepsInv(s: State, ev: Event, t: State, factor: real)
    requires Inv(s) && Step(s, ev, t, factor)
    ensures Inv(t)
  {
    match ev
    case Attached(h) =>
      InvAttached(s, h);
      InvSame(t, s.(clients := s.clients[h := Client(0, 0, 0)], nextHandle := h + 1));
    case Submitted(e) =>
      InvSubmitted(s, e);
      InvSame(t, Submission(s, e));
    case Rejected(h) =>
      var u := WithErrors(s, h, s.clients[h].errors + 1);
      CountsUnchanged(s, u);
      assert forall x :: EntryOk(s, x) ==> EntryOk(u, x);
      InvSame(t, u);
    case Transferred(e) =>
      InvTransferred(s, e, t);
    case Executed(e, v) =>
      InvExecuted(s, v);
      InvSame(t, ExecuteNext(s, v));
    case Detached(h) =>
      InvDetached(s, h);
      InvSame(t, s.(clients := s.clients - {h}, queue := CancelAll(s.queue, h)));
  }

  lemma InitialInv(s: State)
    requires Initial(s)
    ensures Inv(s)
  {
  }

  lemma RunKeepsInv(states: seq<State>, events: seq<Event>, factor: real, i: nat)
    requires IsRun(states, events, factor) && i < |events| && Inv(states[i])
    ensures Inv(states[i + 1])
  {
    assert StepAt(states, events, i, factor);
    StepKeepsInv(states[i], events[i], states[i + 1], factor);
  }

  /**
   In every state of every run each attached client has no more commands waiting than its account says, the
   account never exceeds the limit, and no command is held twice.
   */
  lemma {:induction false} AccountsAlwaysOk(states: seq<State>, events: seq<Event>, factor: real, i: nat)
    requires IsRun(states, events, factor) && i < |states|
    ensures Inv(states[i])
  {
    if i == 0 {
      InitialInv(states[0]);
    } else {
      AccountsAlwaysOk(states, events, factor, i - 1);
      RunKeepsInv(states, events, factor, i - 1);
    }
  }
}
