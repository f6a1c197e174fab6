/**
 Timing tables (libs/protocol/api-timing.cpp): a change is calculated into a table in place, and the table is
 compiled into the values that the client waits for. Real arithmetic, so that scaling does not round.
 */
module Timing {
  import opened Text

  datatype Mode = Mode(scaled: bool, recursive: bool)

  datatype Spec = Spec(value: real, mode: Mode)

  datatype Update = Keep | Equal | Multiply | Divide | Calculate | Invalid

  datatype Change = Change(update: Update, setsMode: bool, value: real, mode: Mode)

  function Times(a: real, b: real): real {
    a * b
  }

  function Over(a: real, b: real): real
    requires b != 0.0
  {
    a / b
  }

  /** The specification after a change, if the change is accepted. */
  function Changed(change: Change, was: Spec, scale: real): (r: Option<Spec>)
    ensures r.Some? && change.update != Keep ==> r.value.value > 0.0
    ensures r.Some? && change.update == Keep ==> r.value.value == was.value
  {
    var mode := if change.setsMode then change.mode else was.mode;
    if change.update == Keep then Some(Spec(was.value, mode))
    else if change.update == Invalid || (change.update == Divide && change.value == 0.0) then None
    else
      var value := if change.update == Equal then change.value
                   else if change.update == Multiply then Times(was.value, change.value)
                   else if change.update == Divide then Over(was.value, change.value)
                   else if scale == 0.0 then change.value
                   else Over(change.value, scale);
      if value <= 0.0 then None else Some(Spec(value, mode))
  }

  /** What a specification means to a scale. */
  function Compiled(spec: Spec, scale: real): real {
    if spec.mode.scaled && scale != 0.0 then Times(spec.value, scale) else spec.value
  }

  lemma Unscaled(v: real, scale: real)
    requires scale > 0.0
    ensures Times(Over(v, scale), scale) == v
    ensures Over(v, scale) > 0.0 <==> v > 0.0
    ensures v > 0.0 ==> (Over(v, scale) == v <==> scale == 1.0)
  {
    var q := v / scale;
    assert q * scale == v;
    if q > 0.0 {
      ProductIsPositive(q, scale);
    } else {
      ProductIsPositive(-q, scale);
    }
    if v > 0.0 && scale > 1.0 {
      ProductIsPositive(v, scale - 1.0);
      assert v * scale == v + v * (scale - 1.0);
    } else if v > 0.0 && scale < 1.0 {
      ProductIsPositive(v, 1.0 - scale);
      assert v * scale == v - v * (1.0 - scale);
    }
  }

  lemma ProductIsPositive(a: real, b: real)
    requires a >= 0.0 && b > 0.0
    ensures a * b >= 0.0 && (a > 0.0 ==> a * b > 0.0)
  {
  }

  /** Which changes are accepted, and what becomes of the value and the mode then. */
  lemma ChangedExactly(change: Change, was: Spec, scale: real)
    requires was.value > 0.0 && scale > 0.0
    ensures Changed(change, was, scale).Some? <==> change.update == Keep || (change.update != Invalid && change.value > 0.0)
    ensures var r := Changed(change, was, scale);
            r.Some? ==>
              && r.value.mode == (if change.setsMode then change.mode else was.mode)
              && match change.update
                 case Keep => r.value.value == was.value
                 case Equal => r.value.value == change.value
                 case Multiply => r.value.value == was.value * change.value
                 case Divide => r.value.value * change.value == was.value
                 case Calculate => r.value.value * scale == change.value
                 case Invalid => false
  {
    var v, x := was.value, change.value;
    if change.update == Multiply {
      SignOfProduct(v, x);
    } else if change.update == Divide && x != 0.0 {
      assert Over(v, x) * x == v;
      SignOfQuotient(v, x);
    } else if change.update == Calculate {
      Unscaled(x, scale);
    }
  }

  lemma SignOfProduct(a: real, b: real)
    requires a > 0.0
    ensures a * b > 0.0 <==> b > 0.0
  {
    if b > 0.0 {
      ProductIsPositive(a, b);
    } else {
      ProductIsPositive(-b, a);
      assert a * b == -(-b * a);
    }
  }

  lemma SignOfQuotient(a: real, b: real)
    requires a > 0.0 && b != 0.0
    ensures Over(a, b) > 0.0 <==> b > 0.0
  {
    var q := a / b;
    assert q * b == a;
    if b > 0.0 {
      SignOfProduct(b, q);
    } else {
      SignOfProduct(-b, q);
      assert -b * q == -(q * b);
    }
  }

  /** A requested value is what the specification means afterwards, exactly if the scale applies to it. */
  lemma RequestIsCompiled(change: Change, was: Spec, scale: real)
    requires change.update == Calculate && scale > 0.0
    ensures Changed(change, was, scale).Some? <==> change.value > 0.0
    ensures var r := Changed(change, was, scale);
            r.Some? ==> (Compiled(r.value, scale) == change.value <==> r.value.mode.scaled || scale == 1.0)
  {
    Unscaled(change.value, scale);
  }

  // ---------------------------------------------------------------- short times

  datatype ShortTime = ShortTime(seconds: int, nanoseconds: int)

  /** Conversion to seconds and nanoseconds; nothing for a negative time. */
  function ToShortTime(spec: Spec, scale: real): Option<ShortTime> {
    var t := if spec.mode.scaled then spec.value * scale else spec.value;
    if t < 0.0 then None
    else Some(ShortTime(t.Floor, ((t - t.Floor as real) * 1000.0 * 1000.0 * 1000.0).Floor))
  }

  lemma FloorIsUnique(x: real, n: int)
    requires n as real <= x < n as real + 1.0
    ensures x.Floor == n
  {
  }

  /** The nanoseconds are below a second, and both together are the time in whole nanoseconds. */
  lemma ShortTimeIsFloor(spec: Spec, scale: real)
    ensures var t := if spec.mode.scaled then spec.value * scale else spec.value;
            var r := ToShortTime(spec, scale);
            && (r.Some? <==> t >= 0.0)
            && (r.Some? ==> && 0 <= r.value.seconds && 0 <= r.value.nanoseconds < 1_000_000_000
                            && r.value.seconds * 1_000_000_000 + r.value.nanoseconds == (t * 1000000000.0).Floor)
  {
    var t := if spec.mode.scaled then spec.value * scale else spec.value;
    if t >= 0.0 {
      var s := t.Floor;
      var f := (t - s as real) * 1000.0 * 1000.0 * 1000.0;
      var n := f.Floor;
      assert 0.0 <= t - s as real < 1.0;
      assert f == (t - s as real) * 1000000000.0;
      assert t * 1000000000.0 == (s * 1_000_000_000) as real + f;
      FloorIsUnique(t * 1000000000.0, s * 1_000_000_000 + n);
    }
  }

  // ---------------------------------------------------------------- tables

  /** Specifications that share a scale. */
  datatype Group = Group(scale: Spec, specs: seq<Spec>)

  datatype GroupChange = GroupChange(scale: Change, specs: seq<Change>)

  datatype TableChange = TableChange(scale: Change, input: GroupChange, output: GroupChange, own: seq<Change>)

  datatype Table = Table(scale: Spec, input: Group, output: Group, own: seq<Spec>)

  // The table's own specifications, in the order of calculate_client_table.
  const OWN := 12
  const TERMINATE_WAIT := 5
  const TERMINAL_WAIT := 6

  /** Where the i-th change of the table's own specifications goes: two of them go to the same place. */
  function Place(own: bool, i: nat): nat {
    if own && i == TERMINAL_WAIT then TERMINATE_WAIT else i
  }

  predicate Fits(change: TableChange, t: Table) {
    |change.input.specs| == |t.input.specs| && |change.output.specs| == |t.output.specs| && |change.own| == |t.own| == OWN
  }

  /** The scale that a table puts on its groups. */
  function Outer(scale: Spec): real {
    if scale.mode.recursive then scale.value else 1.0
  }

  /** The scale that a group puts on its specifications. */
  function Inner(scale: Spec, outer: real): real {
    scale.value * outer
  }

  predicate Positive(t: Table) {
    t.scale.value > 0.0 && t.input.scale.value > 0.0 && t.output.scale.value > 0.0
  }

  /** The specifications at and after i, one after the other up to the first change that is refused. */
  function ChangedFrom(changes: seq<Change>, specs: seq<Spec>, scale: real, own: bool, i: nat): (r: (seq<Spec>, bool))
    requires i <= |changes| == |specs| && (own ==> |specs| == OWN)
    ensures |r.0| == |specs|
    decreases |specs| - i
  {
    if i == |specs| then (specs, true)
    else
      var place := Place(own, i);
      match Changed(changes[i], specs[place], scale)
      case None => (specs, false)
      case Some(spec) => ChangedFrom(changes, specs[place := spec], scale, own, i + 1)
  }

  function ChangedGroup(change: GroupChange, was: Group, outer: real): (r: (Group, bool))
    requires |change.specs| == |was.specs|
    ensures |r.0.specs| == |was.specs|
  {
    match Changed(change.scale, was.scale, outer)
    case None => (was, false)
    case Some(scale) =>
      var (specs, ok) := ChangedFrom(change.specs, was.specs, Inner(scale, outer), false, 0);
      (Group(scale, specs), ok)
  }

  /** The table after a change, up to the first part of it that is refused. */
  function ChangedTable(change: TableChange, was: Table): (r: (Table, bool))
    requires Fits(change, was)
    ensures Fits(change, r.0)
    ensures Positive(was) ==> Positive(r.0)
  {
    match Changed(change.scale, was.scale, 1.0)
    case None => (was, false)
    case Some(scale) =>
      var t := was.(scale := scale);
      var (input, ok) := ChangedGroup(change.input, was.input, Outer(scale));
      if !ok then (t.(input := input), false)
      else
        var (output, ok) := ChangedGroup(change.output, was.output, Outer(scale));
        if !ok then (t.(input := input, output := output), false)
        else
          var (own, ok) := ChangedFrom(change.own, was.own, scale.value, true, 0);
          (Table(scale, input, output, own), ok)
  }

  /** A client's timing table, which is changed in place. */
  class ClientTimingTable {
    var scale: Spec
    var input: Group
    var output: Group
    var own: seq<Spec>

    function Current(): Table
      reads this
    {
      Table(scale, input, output, own)
    }

    constructor (t: Table)
      ensures Current() == t
    {
      scale, input, output, own := t.scale, t.input, t.output, t.own;
    }

    /** Each specification is changed where it stands, so that a refusal leaves what came before it changed. */
    static method CalculateSpecs(changes: seq<Change>, specs: seq<Spec>, scale: real, own: bool)
      returns (result: seq<Spec>, ok: bool)
      requires |changes| == |specs| && (own ==> |specs| == OWN)
      ensures (result, ok) == ChangedFrom(changes, specs, scale, own, 0)
    {
      result, ok := specs, true;
      for i := 0 to |changes|
        invariant |result| == |specs|
        invariant ChangedFrom(changes, specs, scale, own, 0) == ChangedFrom(changes, result, scale, own, i)
      {
        var place := Place(own, i);
        match Changed(changes[i], result[place], scale) {
          case None => return result, false;
          case Some(spec) => result := result[place := spec];
        }
      }
    }

    method Calculate(change: TableChange) returns (ok: bool)
      requires Fits(change, Current())
      modifies this
      ensures (Current(), ok) == ChangedTable(change, old(Current()))
    {
      var s := Changed(change.scale, scale, 1.0);
      if s.None? {
        return false;
      }
      scale := s.value;
      input, ok := CalculateGroup(change.input, input, Outer(scale));
      if !ok {
        return;
      }
      output, ok := CalculateGroup(change.output, output, Outer(scale));
      if !ok {
        return;
      }
      own, ok := CalculateSpecs(change.own, own, scale.value, true);
    }

    /** The scale under which a group is compiled is the one under which changes to it were calculated. */
    method CompiledScale(group: Group) returns (current: real)
      ensures current == Inner(group.scale, Outer(scale))
    {
      current := group.scale.value;
      if scale.mode.recursive {
        current := current * scale.value;
      }
    }

    static method CalculateGroup(change: GroupChange, group: Group, outer: real) returns (result: Group, ok: bool)
      requires |change.specs| == |group.specs|
      ensures (result, ok) == ChangedGroup(change, group, outer)
    {
      var s := Changed(change.scale, group.scale, outer);
      if s.None? {
        return group, false;
      }
      var specs;
      specs, ok := CalculateSpecs(change.specs, group.specs, Inner(s.value, outer), false);
      result := Group(s.value, specs);
    }
  }


  // ---------------------------------------------------------------- requests

  /** A specification that no change goes to keeps its value. */
  lemma {:induction false} NotChanged(changes: seq<Change>, specs: seq<Spec>, scale: real, own: bool, i: nat, k: nat)
    requires i <= |changes| == |specs| && (own ==> |specs| == OWN) && k < |specs|
    requires forall j :: i <= j < |specs| ==> Place(own, j) != k
    ensures ChangedFrom(changes, specs, scale, own, i).0[k] == specs[k]
    decreases |specs| - i
  {
    if i < |specs| {
      var place := Place(own, i);
      var spec := Changed(changes[i], specs[place], scale);
      if spec.Some? {
        NotChanged(changes, specs[place := spec.value], scale, own, i + 1, k);
      }
    }
  }

  /** If nothing is refused, then each change is made to the specification in its own place. */
  lemma {:induction false} ChangedAt(changes: seq<Change>, specs: seq<Spec>, scale: real, own: bool, i: nat, k: nat)
    requires i <= k < |changes| == |specs| && (own ==> |specs| == OWN)
    requires own ==> k != TERMINATE_WAIT && k != TERMINAL_WAIT
    requires ChangedFrom(changes, specs, scale, own, i).1
    ensures Changed(changes[k], specs[k], scale) == Some(ChangedFrom(changes, specs, scale, own, i).0[k])
    decreases |specs| - i
  {
    var place := Place(own, i);
    var spec := Changed(changes[i], specs[place], scale).value;
    if i == k {
      NotChanged(changes, specs[place := spec], scale, own, i + 1, k);
    } else {
      ChangedAt(changes, specs[place := spec], scale, own, i + 1, k);
    }
  }

  /**
   A change that is refused stops the others: those before it are made, and what is behind it stays as it was. The
   refused one is that of the specification in its place, as the changes before left it.
   */
  lemma {:induction false} StopsAtRefusal(changes: seq<Change>, specs: seq<Spec>, scale: real, own: bool, i: nat) returns (k: nat)
    requires i <= |changes| == |specs| && (own ==> |specs| == OWN)
    requires !ChangedFrom(changes, specs, scale, own, i).1
    ensures var r := ChangedFrom(changes, specs, scale, own, i).0;
            && i <= k < |specs| && Changed(changes[k], r[Place(own, k)], scale).None?
            && (forall j :: k <= j < |specs| && !(own && j in {TERMINATE_WAIT, TERMINAL_WAIT}) ==> r[j] == specs[j])
            && (forall j :: i <= j < k && !(own && j in {TERMINATE_WAIT, TERMINAL_WAIT}) ==>
                  Changed(changes[j], specs[j], scale) == Some(r[j]))
            && (forall j :: 0 <= j < i && !(own && j in {TERMINATE_WAIT, TERMINAL_WAIT}) ==> r[j] == specs[j])
    decreases |specs| - i
  {
    var place := Place(own, i);
    var spec := Changed(changes[i], specs[place], scale);
    if spec.None? {
      k := i;
    } else {
      k := StopsAtRefusal(changes, specs[place := spec.value], scale, own, i + 1);
    }
  }

  /** A group's changes are all made exactly if each of them is accepted for what it changes. */
  lemma {:induction false} AcceptedIff(changes: seq<Change>, specs: seq<Spec>, scale: real, i: nat)
    requires i <= |changes| == |specs|
    ensures ChangedFrom(changes, specs, scale, false, i).1
            <==> forall k :: i <= k < |specs| ==> Changed(changes[k], specs[k], scale).Some?
    decreases |specs| - i
  {
    if i < |specs| {
      var spec := Changed(changes[i], specs[i], scale);
      if spec.Some? {
        AcceptedIff(changes, specs[i := spec.value], scale, i + 1);
      }
    }
  }

  /** A table keeps what comes behind the part in which a change is refused. */
  lemma TableStops(change: TableChange, was: Table)
    requires Fits(change, was) && !ChangedTable(change, was).1
    ensures var t := ChangedTable(change, was).0;
            match Changed(change.scale, was.scale, 1.0)
            case None => t == was
            case Some(scale) =>
              var outer := if scale.mode.recursive then scale.value else 1.0;
              && t.scale == scale
              && (!ChangedGroup(change.input, was.input, outer).1 ==> t.output == was.output && t.own == was.own)
              && (ChangedGroup(change.input, was.input, outer).1 && !ChangedGroup(change.output, was.output, outer).1 ==>
                    t.input == ChangedGroup(change.input, was.input, outer).0 && t.own == was.own)
              && (ChangedGroup(change.input, was.input, outer).1 && ChangedGroup(change.output, was.output, outer).1 ==>
                    !ChangedFrom(change.own, was.own, scale.value, true, 0).1)
  {
  }

  lemma {:induction false} ChangedTogether(changes: seq<Change>, specs: seq<Spec>, scale: real, i: nat)
    requires |changes| == |specs| == OWN && i <= TERMINATE_WAIT && ChangedFrom(changes, specs, scale, true, i).1
    ensures var r := ChangedFrom(changes, specs, scale, true, i).0;
            var terminate := Changed(changes[TERMINATE_WAIT], specs[TERMINATE_WAIT], scale);
            && terminate.Some? && Changed(changes[TERMINAL_WAIT], terminate.value, scale) == Some(r[TERMINATE_WAIT])
    decreases OWN - i
  {
    var spec := Changed(changes[i], specs[i], scale).value;
    var next := specs[i := spec];
    if i < TERMINATE_WAIT {
      ChangedTogether(changes, next, scale, i + 1);
    } else {
      var last := Changed(changes[TERMINAL_WAIT], spec, scale).value;
      NotChanged(changes, next[TERMINATE_WAIT := last], scale, true, TERMINAL_WAIT + 1, TERMINATE_WAIT);
    }
  }

  /** A request is met if what the specification now means to its scale is the requested value. */
  predicate Met(change: Change, spec: Spec, scale: real) {
    change.update == Calculate ==> (Compiled(spec, scale) == change.value <==> spec.mode.scaled || scale == 1.0)
  }

  lemma RequestMet(change: Change, was: Spec, spec: Spec, scale: real)
    requires scale > 0.0 && Changed(change, was, scale) == Some(spec)
    ensures Met(change, spec, scale)
  {
    if change.update == Calculate {
      RequestIsCompiled(change, was, scale);
    }
  }

  lemma ScaleRequestMet(change: Change, was: Spec, spec: Spec, outer: real)
    requires outer > 0.0 && was.value > 0.0 && Changed(change, was, outer) == Some(spec)
    ensures spec.value > 0.0 && (change.update == Calculate ==> spec.value * outer == change.value)
  {
    Unscaled(change.value, outer);
  }

  /** All the requests of a group. */
  predicate AllMet(changes: seq<Change>, specs: seq<Spec>, scale: real) {
    |changes| == |specs| && forall k :: 0 <= k < |specs| ==> Met(changes[k], specs[k], scale)
  }

  lemma SpecRequestsMet(changes: seq<Change>, specs: seq<Spec>, scale: real)
    requires |changes| == |specs| && scale > 0.0 && ChangedFrom(changes, specs, scale, false, 0).1
    ensures AllMet(changes, ChangedFrom(changes, specs, scale, false, 0).0, scale)
  {
    var r := ChangedFrom(changes, specs, scale, false, 0).0;
    forall k | 0 <= k < |r| ensures Met(changes[k], r[k], scale) {
      ChangedAt(changes, specs, scale, false, 0, k);
      RequestMet(changes[k], specs[k], r[k], scale);
    }
  }

  /** The scale of a group and all its specifications are what was requested. */
  predicate GroupMet(change: GroupChange, g: Group, outer: real) {
    && g.scale.value > 0.0
    && (change.scale.update == Calculate ==> Inner(g.scale, outer) == change.scale.value)
    && AllMet(change.specs, g.specs, Inner(g.scale, outer))
  }

  lemma GroupRequestsMet(change: GroupChange, was: Group, outer: real)
    requires |change.specs| == |was.specs| && was.scale.value > 0.0 && outer > 0.0 && ChangedGroup(change, was, outer).1
    ensures GroupMet(change, ChangedGroup(change, was, outer).0, outer)
  {
    var scale := Changed(change.scale, was.scale, outer).value;
    ScaleRequestMet(change.scale, was.scale, scale, outer);
    ProductIsPositive(scale.value, outer);
    SpecRequestsMet(change.specs, was.specs, Inner(scale, outer));
  }

  /**
   If a change is not refused then every requested value is met exactly, under the table's and the group's scale, in
   both groups and in the table's own specifications; all but those for the two waits that are mixed up.
   */
  lemma RequestsMet(change: TableChange, was: Table)
    requires Fits(change, was) && Positive(was) && ChangedTable(change, was).1
    ensures var t := ChangedTable(change, was).0;
            && Positive(t)
            && (change.scale.update == Calculate ==> t.scale.value == change.scale.value)
            && GroupMet(change.input, t.input, Outer(t.scale))
            && GroupMet(change.output, t.output, Outer(t.scale))
            && (forall k :: 0 <= k < OWN && k != TERMINATE_WAIT && k != TERMINAL_WAIT ==>
                Met(change.own[k], t.own[k], t.scale.value))
  {
    var t := ChangedTable(change, was).0;
    ScaleRequestMet(change.scale, was.scale, t.scale, 1.0);
    GroupRequestsMet(change.input, was.input, Outer(t.scale));
    GroupRequestsMet(change.output, was.output, Outer(t.scale));
    forall k | 0 <= k < OWN && k != TERMINATE_WAIT && k != TERMINAL_WAIT
      ensures Met(change.own[k], t.own[k], t.scale.value)
    {
      ChangedAt(change.own, was.own, t.scale.value, true, 0, k);
      RequestMet(change.own[k], was.own[k], t.own[k], t.scale.value);
    }
  }

  /** A change that leaves a specification as it is. */
  predicate LeavesAlone(change: Change, spec: Spec, scale: real) {
    && (change.setsMode ==> change.mode == spec.mode)
    && match change.update
       case Keep => true
       case Equal => change.value == spec.value
       case Multiply => change.value == 1.0
       case Divide => change.value == 1.0
       case Calculate => change.value == Times(spec.value, scale)
       case Invalid => false
  }

  lemma SameFactor(a: real, b: real, x: real)
    requires x != 0.0
    ensures a * x == b * x <==> a == b
  {
    if a * x == b * x {
      assert (a - b) * x == 0.0;
      assert a * x / x == a && b * x / x == b;
    }
  }

  lemma QuotientIs(a: real, x: real, b: real)
    requires x != 0.0
    ensures Over(a, x) == b <==> a == Times(b, x)
  {
    assert a / x * x == a;
    SameFactor(a / x, b, x);
  }

  lemma TimesIsSame(v: real, x: real)
    requires v != 0.0
    ensures Times(v, x) == v <==> x == 1.0
  {
    SameFactor(x, 1.0, v);
  }

  lemma OverIsSame(v: real, x: real)
    requires v != 0.0 && x != 0.0
    ensures Over(v, x) == v <==> x == 1.0
  {
    QuotientIs(v, x, v);
    TimesIsSame(v, x);
  }

  /** An accepted change makes nothing else of a specification exactly if it leaves it alone. */
  lemma LeavesAloneExact(change: Change, spec: Spec, scale: real)
    requires scale > 0.0 && Changed(change, spec, scale).Some?
    ensures Changed(change, spec, scale) == Some(spec) <==> LeavesAlone(change, spec, scale)
  {
    var v, x := spec.value, change.value;
    if change.update == Multiply {
      assert v != 0.0;
      TimesIsSame(v, x);
    } else if change.update == Divide {
      assert v != 0.0;
      OverIsSame(v, x);
    } else if change.update == Calculate {
      QuotientIs(x, scale, v);
    }
  }

  /** What a change of the terminal wait must be for a value requested for the terminate wait to survive it. */
  predicate Survives(change: Change, requested: real, scale: real, scaled: bool) {
    match change.update
    case Keep => scaled || scale == 1.0
    case Equal => (if scaled then Times(change.value, scale) else change.value) == requested
    case Multiply => change.value == if scaled then 1.0 else scale
    case Divide => (if scaled then change.value else Times(change.value, scale)) == 1.0
    case Calculate => change.value == if scaled then requested else Times(requested, scale)
    case Invalid => false
  }

  lemma TimesKeeps(v: real, m: real, x: real, scale: real)
    requires scale > 0.0 && m > 0.0 && Times(m, scale) == v
    ensures Times(Times(m, x), scale) == v <==> x == 1.0
    ensures Times(m, x) == v <==> x == scale
  {
    SameFactor(m * x, m, scale);
    TimesIsSame(m, x);
    SameFactor(x, scale, m);
  }

  lemma OverKeeps(v: real, m: real, x: real, scale: real)
    requires scale > 0.0 && m > 0.0 && Times(m, scale) == v && x != 0.0
    ensures Times(Over(m, x), scale) == v <==> x == 1.0
    ensures Over(m, x) == v <==> Times(x, scale) == 1.0
  {
    SameFactor(m / x, m, scale);
    OverIsSame(m, x);
    QuotientIs(m, x, v);
    assert v * x == m * (x * scale);
    TimesIsSame(m, x * scale);
  }

  lemma SurvivesExact(own: Change, other: Change, was: Spec, mid: Spec, spec: Spec, scale: real)
    requires scale > 0.0 && own.update == Calculate
    requires Changed(own, was, scale) == Some(mid) && Changed(other, mid, scale) == Some(spec)
    ensures Compiled(spec, scale) == own.value <==> Survives(other, own.value, scale, spec.mode.scaled)
  {
    Unscaled(own.value, scale);
    if other.update == Multiply {
      TimesKeeps(own.value, mid.value, other.value, scale);
    } else if other.update == Divide {
      OverKeeps(own.value, mid.value, other.value, scale);
    } else if other.update == Calculate {
      Unscaled(other.value, scale);
      QuotientIs(other.value, scale, own.value);
    }
  }

  /**
   The terminal wait never changes, so its change is made where it belongs exactly if it would leave it alone. It is
   made to the terminate wait instead, which stays as its own change made it exactly if the other leaves it alone; a
   value requested for it survives exactly under a condition on the other change.
   */
  lemma TerminalWaitIsMisplaced(change: TableChange, was: Table)
    requires Fits(change, was) && Positive(was) && ChangedTable(change, was).1
    ensures var t := ChangedTable(change, was).0;
            var own, other, scale := change.own[TERMINATE_WAIT], change.own[TERMINAL_WAIT], t.scale.value;
            var mid := Changed(own, was.own[TERMINATE_WAIT], scale);
            && t.own[TERMINAL_WAIT] == was.own[TERMINAL_WAIT]
            && (Changed(other, was.own[TERMINAL_WAIT], scale).Some? ==>
                (Changed(other, was.own[TERMINAL_WAIT], scale) == Some(t.own[TERMINAL_WAIT])
                 <==> LeavesAlone(other, was.own[TERMINAL_WAIT], scale)))
            && mid.Some? && Changed(other, mid.value, scale) == Some(t.own[TERMINATE_WAIT])
            && (t.own[TERMINATE_WAIT] == mid.value <==> LeavesAlone(other, mid.value, scale))
            && (own.update == Calculate ==>
                (Compiled(t.own[TERMINATE_WAIT], scale) == own.value
                 <==> Survives(other, own.value, scale, t.own[TERMINATE_WAIT].mode.scaled)))
            && Met(other, t.own[TERMINATE_WAIT], scale)
  {
    var t := ChangedTable(change, was).0;
    var own, other, scale := change.own[TERMINATE_WAIT], change.own[TERMINAL_WAIT], t.scale.value;
    NotChanged(change.own, was.own, scale, true, 0, TERMINAL_WAIT);
    ChangedTogether(change.own, was.own, scale, 0);
    var mid := Changed(own, was.own[TERMINATE_WAIT], scale).value;
    LeavesAloneExact(other, mid, scale);
    if Changed(other, was.own[TERMINAL_WAIT], scale).Some? {
      LeavesAloneExact(other, was.own[TERMINAL_WAIT], scale);
    }
    if own.update == Calculate {
      SurvivesExact(own, other, was.own[TERMINATE_WAIT], mid, t.own[TERMINATE_WAIT], scale);
    }
    RequestMet(other, mid, t.own[TERMINATE_WAIT], scale);
  }

  // ---------------------------------------------------------------- the server

  /** A value calculated under one scale and compiled under another is the requested one exactly if they are equal. */
  lemma OtherScale(v: real, scale: real, other: real)
    requires scale > 0.0 && v > 0.0
    ensures Times(Over(v, scale), other) == v <==> other == scale
  {
    Unscaled(v, scale);
    SameFactor(other, scale, Over(v, scale));
  }

  lemma NestedScale(input: Spec, table: Spec)
    requires table.value > 0.0 && input.value > 0.0
    ensures var inner := Inner(input, Outer(table));
            && inner > 0.0
            && (inner == table.value <==> if table.mode.recursive then input.value == 1.0 else input.value == table.value)
  {
    ProductIsPositive(input.value, Outer(table));
    if table.mode.recursive {
      SameFactor(input.value, 1.0, table.value);
      assert 1.0 * table.value == table.value;
    }
  }

  /**
   The server's two times for registering everything are calculated under the scale of its table, and compiled under
   that of its input group: a requested value is met exactly if these are equal, or, where no scale applies, if the
   table has none. Under a recursive table scale, the input group must have none.
   */
  lemma RegisterAllMet(change: Change, was: Spec, table: Spec, input: Spec)
    requires change.update == Calculate && table.value > 0.0 && input.value > 0.0
    requires Changed(change, was, table.value).Some?
    ensures var spec := Changed(change, was, table.value).value;
            Compiled(spec, Inner(input, Outer(table))) == change.value
            <==> if !spec.mode.scaled then table.value == 1.0
                 else if table.mode.recursive then input.value == 1.0
                 else input.value == table.value
  {
    var spec := Changed(change, was, table.value).value;
    assert spec.value == Over(change.value, table.value);
    Unscaled(change.value, table.value);
    NestedScale(input, table);
    OtherScale(change.value, table.value, Inner(input, Outer(table)));
    hide Times, Over, Inner;
  }
}
