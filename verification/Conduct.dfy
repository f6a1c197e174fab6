/** What the server holds against a client: errors, which good conduct works off, and invalid commands, which stay. */
module Conduct {
  import opened Entities
  import opened Text
  import opened ExecuteQueue
  import opened Pipeline
  import opened Accounting

  predicate OwnOutcome(ev: Event, h: Handle) {
    ev.Executed? && ev.entry.key == Some(h)
  }

  predicate Charges(ev: Event, h: Handle) {
    || ev == Rejected(h)
    || (OwnOutcome(ev, h) && (ev.verdict.BadOrigin? || ev.verdict.BadTarget? || ev.verdict.Misaddressed?))
  }

  predicate Credits(ev: Event, h: Handle) {
    OwnOutcome(ev, h) && (ev.verdict.Sent? || ev.verdict.Evaluated?)
  }

  predicate Invalidates(ev: Event, h: Handle) {
    OwnOutcome(ev, h) && (ev.verdict == BadPermissions(false) || ev.verdict.WrongOrigin?)
  }

  /** The command is back in the queue afterwards. */
  predicate PutsBack(ev: Event) {
    ev.Executed? && (ev.verdict == Reparsed(true) || (ev.verdict.Busy? && ev.entry.penalty + 32 <= 256))
  }

  // ---------------------------------------------------------------- one step

  /** What a step does to the record of a client that stays. */
  predicate Recorded(was: Client, ev: Event, now: Client, h: Handle) {
    && now.errors == (if Charges(ev, h) then was.errors + 1
                      else if Credits(ev, h) && was.errors > 0 then was.errors - 1 else was.errors)
    && now.invalid == (if Invalidates(ev, h) then was.invalid + 1 else was.invalid)
    && now.waiting == (if ev.Submitted? && ev.entry.key == Some(h) then was.waiting + 1
                       else if OwnOutcome(ev, h)
                       then (if was.waiting > 0 then was.waiting - 1 else 0) + (if PutsBack(ev) then 1 else 0)
                       else was.waiting)
  }

  lemma StepRecorded(s: State, ev: Event, t: State, factor: real, h: Handle)
    requires Inv(s) && Step(s, ev, t, factor) && h in s.clients && h in t.clients
    ensures Recorded(s.clients[h], ev, t.clients[h], h)
  {
    hide Inv;
    match ev
    case Executed(e, v) => ExecutedRecorded(s, v, h);
    case Attached(k) => KnownHandles(s);
    case _ =>
  }

  lemma KnownHandles(s: State)
    requires Inv(s)
    ensures forall h :: h in s.clients ==> h < s.nextHandle
  {
  }

  lemma ExecutedRecorded(s: State, v: Verdict, h: Handle)
    requires Inv(s) && s.cache != [] && Fits(s, s.cache[0], v) && h in s.clients && h in ExecuteNext(s, v).clients
    ensures Recorded(s.clients[h], Executed(s.cache[0], v), ExecuteNext(s, v).clients[h], h)
  {
    KnownHandles(s);
    assert ExecuteNext(s, v).clients == ExecuteSingle(s, v).0.clients;
    hide Inv, ExecuteNext;
  }

  /** Who is attached after a step, and that a newcomer has a clean record. */
  lemma StepAttaches(s: State, ev: Event, t: State, factor: real, h: Handle)
    requires Inv(s) && Step(s, ev, t, factor)
    ensures h in t.clients <==>
              || (h in s.clients && ev != Detached(h) && !(ev.Executed? && ev.verdict.Evaluated? && h in ev.verdict.terminated))
              || ev == Attached(h)
              || (ev.Executed? && ev.verdict.Evaluated? && s.nextHandle <= h < s.nextHandle + ev.verdict.created)
    ensures h in t.clients && h !in s.clients ==> t.clients[h] == Client(0, 0, 0)
    ensures t.nextHandle == s.nextHandle + (if ev.Attached? then 1
                                            else if ev.Executed? && ev.verdict.Evaluated? then ev.verdict.created else 0)
  {
    KnownHandles(s);
    hide Inv;
    if ev.Executed? {
      ExecutedAttaches(s, ev.verdict, h);
      hide ExecuteNext, Fits;
    }
  }

  lemma ExecutedAttaches(s: State, v: Verdict, h: Handle)
    requires s.cache != [] && Fits(s, s.cache[0], v) && forall k :: k in s.clients ==> k < s.nextHandle
    ensures var t := ExecuteNext(s, v);
            && (h in t.clients <==> (h in s.clients && !(v.Evaluated? && h in v.terminated))
                                    || (v.Evaluated? && s.nextHandle <= h < s.nextHandle + v.created))
            && (h in t.clients && h !in s.clients ==> t.clients[h] == Client(0, 0, 0))
            && t.nextHandle == s.nextHandle + if v.Evaluated? then v.created else 0
  {
    assert ExecuteNext(s, v).clients == ExecuteSingle(s, v).0.clients;
    assert ExecuteNext(s, v).nextHandle == ExecuteSingle(s, v).0.nextHandle;
    hide ExecuteNext;
  }

  // ---------------------------------------------------------------- runs

  /** The number of such events among those from i on and before j. */
  function Tally(events: seq<Event>, i: nat, j: nat, p: Event -> bool): nat
    requires j <= |events|
    decreases j
  {
    if j <= i then 0 else Tally(events, i, j - 1, p) + if p(events[j - 1]) then 1 else 0
  }

  ghost predicate Stays(states: seq<State>, i: nat, j: nat, h: Handle) {
    i <= j < |states| && forall k :: i <= k <= j ==> h in states[k].clients
  }

  lemma RunRecorded(states: seq<State>, events: seq<Event>, factor: real, j: nat, h: Handle)
    requires IsRun(states, events, factor) && j < |events| && h in states[j].clients && h in states[j + 1].clients
    ensures Recorded(states[j].clients[h], events[j], states[j + 1].clients[h], h)
  {
    AccountsAlwaysOk(states, events, factor, j);
    assert StepAt(states, events, j, factor);
    StepRecorded(states[j], events[j], states[j + 1], factor, h);
  }

  /** Invalid commands are counted one by one, and never forgotten. */
  lemma {:induction false} InvalidIsTally(states: seq<State>, events: seq<Event>, factor: real, i: nat, j: nat, h: Handle)
    requires IsRun(states, events, factor) && Stays(states, i, j, h)
    ensures states[j].clients[h].invalid
         == states[i].clients[h].invalid + Tally(events, i, j, ev => Invalidates(ev, h))
    decreases j
  {
    if i < j {
      InvalidIsTally(states, events, factor, i, j - 1, h);
      RunRecorded(states, events, factor, j - 1, h);
    }
  }

  /** With no charge in between, every command that is delivered or evaluated works off one error, down to none. */
  lemma {:induction false} CreditsLower(states: seq<State>, events: seq<Event>, factor: real, i: nat, j: nat, h: Handle)
    requires IsRun(states, events, factor) && Stays(states, i, j, h)
    requires Tally(events, i, j, ev => Charges(ev, h)) == 0
    ensures var n, credits := states[i].clients[h].errors, Tally(events, i, j, ev => Credits(ev, h));
            states[j].clients[h].errors == if credits <= n then n - credits else 0
    decreases j
  {
    if i < j {
      CreditsLower(states, events, factor, i, j - 1, h);
      RunRecorded(states, events, factor, j - 1, h);
    }
  }

  /** Each charge counts once; each credit takes off at most one, and the charges are all there are. */
  lemma {:induction false} ErrorsBounded(states: seq<State>, events: seq<Event>, factor: real, i: nat, j: nat, h: Handle)
    requires IsRun(states, events, factor) && Stays(states, i, j, h)
    ensures var n, now := states[i].clients[h].errors, states[j].clients[h].errors;
            var charges, credits := Tally(events, i, j, ev => Charges(ev, h)), Tally(events, i, j, ev => Credits(ev, h));
            n + charges <= now + credits && now <= n + charges
    decreases j
  {
    if i < j {
      ErrorsBounded(states, events, factor, i, j - 1, h);
      RunRecorded(states, events, factor, j - 1, h);
    }
  }

  /** A client with fewer charges since it came, and fewer invalid commands, than the limits is not turned away. */
  lemma GoodConductIsHeard(states: seq<State>, events: seq<Event>, factor: real, i: nat, j: nat, h: Handle)
    requires IsRun(states, events, factor) && 0 < i && Stays(states, i, j, h) && h !in states[i - 1].clients
    requires Tally(events, i, j, ev => Charges(ev, h)) < MAX_CLIENT_ERROR
    requires Tally(events, i, j, ev => Invalidates(ev, h)) < MAX_CLIENT_INVALID
    ensures states[j].clients[h].errors < MAX_CLIENT_ERROR && states[j].clients[h].invalid < MAX_CLIENT_INVALID
  {
    AccountsAlwaysOk(states, events, factor, i - 1);
    assert StepAt(states, events, i - 1, factor);
    StepAttaches(states[i - 1], events[i - 1], states[i], factor, h);
    ErrorsBounded(states, events, factor, i, j, h);
    InvalidIsTally(states, events, factor, i, j, h);
  }
}
