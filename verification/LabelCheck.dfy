/** Which names and addresses the library lets through (libs/protocol/api-label-check.cpp, limits in param.h). */
module LabelCheck {
  import opened Text
  import opened Conversion

  const ENTITY_LIMIT := 128
  const ADDRESS_LIMIT := 256
  const SCOPE_LIMIT := 2048

  predicate EntityChar(c: char) {
    || 'a' <= c <= 'z' || 'A' <= c <= 'Z' || '0' <= c <= '9'
    || c in "-~`#$%^&_+;:',./@"
  }

  predicate AddressChar(c: char) {
    EntityChar(c) || c == CLIENT_SCOPE || c == ADDRESS_SCOPE
  }

  predicate EntityLabel(text: string) {
    |text| <= ENTITY_LIMIT && forall c :: c in text ==> EntityChar(c)
  }

  lemma EntityLabelIsClean(text: string)
    requires EntityLabel(text)
    ensures Clean(text)
  {
    assert !EntityChar(CLIENT_SCOPE) && !EntityChar(ADDRESS_SCOPE);
  }

  // ---------------------------------------------------------------- the grammar

  /** One hop as a user writes it: a client, one separator, a connection of limited length. */
  predicate SegmentOk(s: string) {
    CLIENT_SCOPE in s && CLIENT_SCOPE !in After(s, CLIENT_SCOPE) && |After(s, CLIENT_SCOPE)| <= ADDRESS_LIMIT
  }

  predicate AllSegmentsOk(segments: seq<string>) {
    forall s :: s in segments ==> SegmentOk(s)
  }

  /** A leading separator hides from the scan: a second one in the same segment is let through. */
  predicate DoubleLead(s: string) {
    && s != "" && s[0] == CLIENT_SCOPE && CLIENT_SCOPE in s[1..]
    && CLIENT_SCOPE !in After(s[1..], CLIENT_SCOPE)
    && |s| - 2 <= ADDRESS_LIMIT
  }

  predicate ScopeShape(text: string) {
    var segments := Split(text, ADDRESS_SCOPE);
    if text != "" && text[0] == CLIENT_SCOPE then
      AllSegmentsOk(segments[1..]) && (if SegmentOk(segments[0]) then |segments| > 1 else DoubleLead(segments[0]))
    else
      Clean(text) || AllSegmentsOk(segments)
  }

  predicate AddressLabel(text: string) {
    && |text| <= SCOPE_LIMIT
    && (forall c :: c in text ==> AddressChar(c))
    && ScopeShape(text)
  }

  // ---------------------------------------------------------------- the scan

  /** What the scan's position variables amount to. */
  datatype Phase =
    | Start                 // nothing read
    | Unscoped              // no separator so far
    | Lead(count: nat)      // only the separator at position 0, which compares as none
    | Connection(count: nat)
    | Name                  // after an address separator

  /** The phase after one more character, if the scan goes on. */
  function Next(phase: Phase, c: char): Option<Phase> {
    if c == CLIENT_SCOPE then
      match phase
      case Start => Some(Lead(0))
      case Lead(n) => Some(Connection(n))
      case Connection(_) => None
      case _ => Some(Connection(0))
    else if c == ADDRESS_SCOPE then
      if phase.Lead? || phase.Connection? then Some(Name) else None
    else
      match phase
      case Start => Some(Unscoped)
      case Lead(n) => if n < ADDRESS_LIMIT then Some(Lead(n + 1)) else None
      case Connection(n) => if n < ADDRESS_LIMIT then Some(Connection(n + 1)) else None
      case _ => Some(phase)
  }

  /** The rest of the scan from a phase. */
  predicate Accepts(phase: Phase, rest: string)
    decreases |rest|
  {
    if rest == "" then !phase.Name? && !phase.Lead?
    else
      var next := Next(phase, rest[0]);
      next.Some? && Accepts(next.value, rest[1..])
  }

  predicate Tracks(phase: Phase, i: nat, target: int, address: int, current: int, checking: bool) {
    && 0 <= address && (address == 0 || address < i) && -1 <= target < i && current >= 0
    && match phase
       case Start => i == 0 && target == -1 && address == 0 && !checking && current == 0
       case Unscoped => i > 0 && target == -1 && address == 0 && !checking && current == 0
       case Lead(n) => i > 0 && target == 0 && address == 0 && checking && current == n
       case Connection(n) => address < target && checking && current == n
       case Name => 0 <= target < address && !checking && current == 0
  }

  method CheckEntityLabel(text: string) returns (ok: bool)
    ensures ok <==> EntityLabel(text)
  {
    if |text| > ENTITY_LIMIT {
      return false;
    }
    ok := forall c :: c in text ==> EntityChar(c);
  }

  lemma AcceptsFrom(phase: Phase, text: string, i: nat)
    requires i < |text|
    ensures Accepts(phase, text[i..]) <==>
              Next(phase, text[i]).Some? && Accepts(Next(phase, text[i]).value, text[i + 1..])
  {
    assert text[i..][0] == text[i] && text[i..][1..] == text[i + 1..];
  }

  // What one more character does to the position variables.

  lemma TracksClient(phase: Phase, i: nat, target: int, address: int, current: int, checking: bool)
    requires Tracks(phase, i, target, address, current, checking)
    ensures Next(phase, CLIENT_SCOPE).None? <==> target > address
    ensures target <= address ==> Tracks(Next(phase, CLIENT_SCOPE).value, i + 1, i, address, current, true)
  {
  }

  lemma TracksAddress(phase: Phase, i: nat, target: int, address: int, current: int, checking: bool)
    requires Tracks(phase, i, target, address, current, checking)
    ensures Next(phase, ADDRESS_SCOPE).None? <==> address > target
    ensures address <= target ==> Tracks(Next(phase, ADDRESS_SCOPE).value, i + 1, target, i, 0, false)
  {
  }

  lemma TracksOther(phase: Phase, i: nat, target: int, address: int, current: int, checking: bool, c: char)
    requires Tracks(phase, i, target, address, current, checking) && c != CLIENT_SCOPE && c != ADDRESS_SCOPE
    ensures Next(phase, c).None? <==> checking && current + 1 > ADDRESS_LIMIT
    ensures Next(phase, c).Some? ==>
              Tracks(Next(phase, c).value, i + 1, target, address, if checking then current + 1 else current, checking)
  {
  }

  lemma AcceptsEnd(phase: Phase, text: string, target: int, address: int, current: int, checking: bool)
    requires Tracks(phase, |text|, target, address, current, checking)
    ensures Accepts(phase, text[|text|..]) <==> target < 0 || target > address
  {
  }

  method CheckAddressLabel(text: string) returns (ok: bool)
    ensures ok <==> AddressLabel(text)
  {
    ScanIsShape(text);
    if |text| > SCOPE_LIMIT {
      return false;
    }
    if !forall c :: c in text ==> AddressChar(c) {
      return false;
    }
    assert text[0..] == text && Tracks(Start, 0, -1, 0, 0, false);
    hide Accepts, ScopeShape, AddressChar, Next, Tracks;
    var target, address, currentAddress := -1, 0, 0;
    var checkingAddress := false;
    var i := 0;
    ghost var phase := Start;
    while i < |text|
      invariant 0 <= i <= |text|
      invariant Tracks(phase, i, target, address, currentAddress, checkingAddress)
      invariant Accepts(Start, text) <==> Accepts(phase, text[i..])
    {
      AcceptsFrom(phase, text, i);
      ghost var next := Next(phase, text[i]);
      if text[i] == CLIENT_SCOPE {
        TracksClient(phase, i, target, address, currentAddress, checkingAddress);
        if target > address {
          return false;
        }
        checkingAddress := true;
        target := i;
      } else if text[i] == ADDRESS_SCOPE {
        TracksAddress(phase, i, target, address, currentAddress, checkingAddress);
        if address > target {
          return false;
        }
        checkingAddress := false;
        currentAddress := 0;
        address := i;
      } else {
        TracksOther(phase, i, target, address, currentAddress, checkingAddress, text[i]);
        if checkingAddress {
          currentAddress := currentAddress + 1;
          if currentAddress > ADDRESS_LIMIT {
            return false;
          }
        }
      }
      phase := next.value;
      i := i + 1;
    }
    AcceptsEnd(phase, text, target, address, currentAddress, checkingAddress);
    ok := target < 0 || target > address;
  }

  method CheckNextToClient(text: string) returns (ok: bool)
    ensures ok <==> NextToClient(text)
  {
    if |text| == 0 {
      return true;
    }
    var i := 0;
    while i < |text|
      invariant 0 <= i <= |text|
      invariant Clean(text[..i])
    {
      SeparatorAt(text, i);
      if text[i] == CLIENT_SCOPE {
        return true;
      } else if text[i] == ADDRESS_SCOPE {
        return false;
      }
      i := i + 1;
    }
    assert text[..i] == text;
    ok := false;
  }

  /** The first separator, if any, ends a client name. */
  predicate NextToClient(text: string) {
    text == "" || (CLIENT_SCOPE in text && ADDRESS_SCOPE !in Before(text, CLIENT_SCOPE))
  }

  lemma SeparatorAt(text: string, i: nat)
    requires i < |text| && Clean(text[..i])
    ensures text[i] == CLIENT_SCOPE ==> NextToClient(text)
    ensures text[i] == ADDRESS_SCOPE ==> !NextToClient(text)
    ensures text[i] != CLIENT_SCOPE && text[i] != ADDRESS_SCOPE ==> Clean(text[..i + 1])
  {
    assert text == text[..i] + [text[i]] + text[i + 1..];
    if text[i] == CLIENT_SCOPE {
      FindFirst(text[..i], CLIENT_SCOPE, text[i + 1..]);
    } else if text[i] == ADDRESS_SCOPE && CLIENT_SCOPE in text {
      var j := Find(text, CLIENT_SCOPE);
      assert forall k | 0 <= k < i :: text[k] in text[..i];
      assert Before(text, CLIENT_SCOPE)[i] == ADDRESS_SCOPE;
    } else {
      assert text[..i + 1] == text[..i] + [text[i]];
    }
  }

  // ---------------------------------------------------------------- the scan decides the grammar

  lemma SplitFirst(s: string)
    requires s != ""
    ensures s[0] == ADDRESS_SCOPE ==> Split(s, ADDRESS_SCOPE) == [""] + Split(s[1..], ADDRESS_SCOPE)
    ensures s[0] != ADDRESS_SCOPE ==>
              var rest := Split(s[1..], ADDRESS_SCOPE);
              Split(s, ADDRESS_SCOPE) == [[s[0]] + rest[0]] + rest[1..]
  {
    if s[0] == ADDRESS_SCOPE {
      assert s == "" + [ADDRESS_SCOPE] + s[1..];
      FindFirst("", ADDRESS_SCOPE, s[1..]);
    } else if ADDRESS_SCOPE in s[1..] {
      var head, tail := Before(s[1..], ADDRESS_SCOPE), After(s[1..], ADDRESS_SCOPE);
      assert s == ([s[0]] + head) + [ADDRESS_SCOPE] + tail;
      FindFirst([s[0]] + head, ADDRESS_SCOPE, tail);
    } else {
      assert s == [s[0]] + s[1..];
    }
  }

  lemma {:induction false} AcceptsConnection(n: nat, s: string)
    requires n <= ADDRESS_LIMIT
    ensures var segments := Split(s, ADDRESS_SCOPE);
            Accepts(Connection(n), s)
            <==> CLIENT_SCOPE !in segments[0] && n + |segments[0]| <= ADDRESS_LIMIT && AllSegmentsOk(segments[1..])
    decreases |s|
  {
    var segments := Split(s, ADDRESS_SCOPE);
    if s != "" {
      SplitFirst(s);
      if s[0] == ADDRESS_SCOPE {
        AcceptsName(s[1..]);
        assert segments[1..] == Split(s[1..], ADDRESS_SCOPE);
      } else if s[0] != CLIENT_SCOPE && n < ADDRESS_LIMIT {
        AcceptsConnection(n + 1, s[1..]);
        assert segments[0] == [s[0]] + Split(s[1..], ADDRESS_SCOPE)[0];
        assert segments[1..] == Split(s[1..], ADDRESS_SCOPE)[1..];
      }
    }
  }

  lemma SegmentOkStep(c: char, s: string)
    ensures c == CLIENT_SCOPE ==> (SegmentOk([c] + s) <==> CLIENT_SCOPE !in s && |s| <= ADDRESS_LIMIT)
    ensures c != CLIENT_SCOPE ==> (SegmentOk([c] + s) <==> SegmentOk(s))
  {
    var t := [c] + s;
    assert t[1..] == s;
    if c == CLIENT_SCOPE {
      assert After(t, CLIENT_SCOPE) == s;
    } else if CLIENT_SCOPE in s {
      assert t == ([c] + Before(s, CLIENT_SCOPE)) + [CLIENT_SCOPE] + After(s, CLIENT_SCOPE);
      FindFirst([c] + Before(s, CLIENT_SCOPE), CLIENT_SCOPE, After(s, CLIENT_SCOPE));
    }
  }

  lemma AllOkCons(segments: seq<string>)
    requires segments != []
    ensures AllSegmentsOk(segments) <==> SegmentOk(segments[0]) && AllSegmentsOk(segments[1..])
  {
    assert segments == [segments[0]] + segments[1..];
  }

  lemma {:induction false} AcceptsName(s: string)
    ensures Accepts(Name, s) <==> AllSegmentsOk(Split(s, ADDRESS_SCOPE))
    decreases |s|
  {
    var segments := Split(s, ADDRESS_SCOPE);
    AllOkCons(segments);
    if s != "" {
      SplitFirst(s);
      var rest := Split(s[1..], ADDRESS_SCOPE);
      if s[0] != ADDRESS_SCOPE {
        SegmentOkStep(s[0], rest[0]);
        assert segments[0] == [s[0]] + rest[0] && segments[1..] == rest[1..];
        if s[0] == CLIENT_SCOPE {
          AcceptsConnection(0, s[1..]);
        } else {
          AcceptsName(s[1..]);
          AllOkCons(rest);
        }
      }
    }
  }

  lemma {:induction false} AcceptsUnscoped(s: string)
    ensures Accepts(Unscoped, s) <==> Clean(s) || AllSegmentsOk(Split(s, ADDRESS_SCOPE))
    decreases |s|
  {
    var segments := Split(s, ADDRESS_SCOPE);
    AllOkCons(segments);
    if s != "" {
      SplitFirst(s);
      assert s == [s[0]] + s[1..];
      var rest := Split(s[1..], ADDRESS_SCOPE);
      if s[0] != ADDRESS_SCOPE {
        SegmentOkStep(s[0], rest[0]);
        assert segments[0] == [s[0]] + rest[0] && segments[1..] == rest[1..];
        if s[0] == CLIENT_SCOPE {
          AcceptsConnection(0, s[1..]);
        } else {
          AcceptsUnscoped(s[1..]);
          AllOkCons(rest);
        }
      }
    }
  }

  /** The rest of a label whose first character was a separator. */
  predicate LeadShape(n: nat, segments: seq<string>)
    requires segments != []
  {
    && AllSegmentsOk(segments[1..])
    && if CLIENT_SCOPE in segments[0]
       then CLIENT_SCOPE !in After(segments[0], CLIENT_SCOPE) && n + |segments[0]| - 1 <= ADDRESS_LIMIT
       else |segments| > 1 && n + |segments[0]| <= ADDRESS_LIMIT
  }

  lemma LeadShapeStep(n: nat, c: char, rest: seq<string>)
    requires rest != [] && c != CLIENT_SCOPE
    ensures LeadShape(n, [[c] + rest[0]] + rest[1..]) <==> LeadShape(n + 1, rest)
  {
    var s := rest[0];
    var segments := [[c] + s] + rest[1..];
    assert segments[0] == [c] + s && segments[1..] == rest[1..];
    assert rest == [s] + rest[1..];
    if CLIENT_SCOPE in s {
      assert [c] + s == ([c] + Before(s, CLIENT_SCOPE)) + [CLIENT_SCOPE] + After(s, CLIENT_SCOPE);
      FindFirst([c] + Before(s, CLIENT_SCOPE), CLIENT_SCOPE, After(s, CLIENT_SCOPE));
    }
  }

  lemma {:induction false} AcceptsLead(n: nat, s: string)
    requires n <= ADDRESS_LIMIT
    ensures Accepts(Lead(n), s) <==> LeadShape(n, Split(s, ADDRESS_SCOPE))
    decreases |s|
  {
    var segments := Split(s, ADDRESS_SCOPE);
    if s != "" {
      SplitFirst(s);
      var rest := Split(s[1..], ADDRESS_SCOPE);
      if s[0] == ADDRESS_SCOPE {
        AcceptsName(s[1..]);
        assert segments[1..] == rest;
      } else if s[0] == CLIENT_SCOPE {
        AcceptsConnection(n, s[1..]);
        assert segments[0] == "" + [CLIENT_SCOPE] + rest[0] && segments[1..] == rest[1..];
        FindFirst("", CLIENT_SCOPE, rest[0]);
      } else {
        LeadShapeStep(n, s[0], rest);
        if n < ADDRESS_LIMIT {
          AcceptsLead(n + 1, s[1..]);
        } else if CLIENT_SCOPE in rest[0] {
          assert |rest[0]| >= 1;
        }
      }
    }
  }

  /** The one-pass scan accepts exactly the labels of the grammar. */
  lemma ScanIsShape(text: string)
    ensures Accepts(Start, text) <==> ScopeShape(text)
  {
    if text != "" {
      SplitFirst(text);
      var segments, rest := Split(text, ADDRESS_SCOPE), Split(text[1..], ADDRESS_SCOPE);
      if text[0] == CLIENT_SCOPE {
        AcceptsLead(0, text[1..]);
        SegmentOkStep(CLIENT_SCOPE, rest[0]);
        assert segments[0] == [CLIENT_SCOPE] + rest[0] && segments[1..] == rest[1..];
        assert segments[0][1..] == rest[0];
      } else {
        AcceptsUnscoped(text);
      }
    }
  }

  // ---------------------------------------------------------------- what accepted labels are good for

  /** No accepted label that starts at a client is cut short by the insertion. */
  lemma AcceptedIsComplete(text: string)
    requires AddressLabel(text) && text != "" && NextToClient(text)
    ensures Complete(Split(text, ADDRESS_SCOPE))
  {
    var segments := Split(text, ADDRESS_SCOPE);
    assert segments == [segments[0]] + segments[1..];
    forall s | s in segments
      ensures CLIENT_SCOPE in s
    {
      if s in segments[1..] {
        assert text[0] == CLIENT_SCOPE || AllSegmentsOk(segments);
      }
    }
  }

  function HopsOf(segments: seq<string>): (hops: seq<Hop>)
    requires AllSegmentsOk(segments)
    ensures |hops| == |segments|
  {
    if segments == [] then []
    else
      assert segments[0] in segments;
      [Hop(Before(segments[0], CLIENT_SCOPE), After(segments[0], CLIENT_SCOPE))] + HopsOf(segments[1..])
  }

  lemma {:induction false} HopsOfSegments(segments: seq<string>)
    requires AllSegmentsOk(segments) && forall s :: s in segments ==> ADDRESS_SCOPE !in s
    ensures CleanHops(HopsOf(segments)) && Segments(HopsOf(segments)) == segments
  {
    if segments != [] {
      var s := segments[0];
      assert s in segments;
      HopsOfSegments(segments[1..]);
      assert s == Before(s, CLIENT_SCOPE) + [CLIENT_SCOPE] + After(s, CLIENT_SCOPE);
      assert Clean(Before(s, CLIENT_SCOPE)) && Clean(After(s, CLIENT_SCOPE));
    }
  }

  /**
   An accepted label writes down a list of hops, all of which are inserted; but for a label whose first segment has
   the separator that the scan overlooks and another one.
   */
  lemma AcceptedIsRoute(text: string, inner: seq<Hop>, entity: string) returns (hops: seq<Hop>)
    requires AddressLabel(text) && text != "" && NextToClient(text) && !DoubleLead(Split(text, ADDRESS_SCOPE)[0])
    ensures hops != [] && CleanHops(hops) && text == ScopeText(hops)
    ensures Inserted(Route(inner, entity), Split(text, ADDRESS_SCOPE)) == Route(hops + inner, entity)
  {
    var segments := Split(text, ADDRESS_SCOPE);
    assert segments == [segments[0]] + segments[1..];
    assert AllSegmentsOk(segments);
    HopsOfSegments(segments);
    hops := HopsOf(segments);
    JoinSplit(text, ADDRESS_SCOPE);
    InsertBuildsRoute(hops, inner, entity);
  }

  /** The exception is exact: such a label is not the text of any list of hops. */
  lemma AcceptedIsRouteIff(text: string)
    requires AddressLabel(text) && text != "" && NextToClient(text)
    ensures !DoubleLead(Split(text, ADDRESS_SCOPE)[0])
            <==> exists hops :: hops != [] && CleanHops(hops) && text == ScopeText(hops)
  {
    if !DoubleLead(Split(text, ADDRESS_SCOPE)[0]) {
      var hops := AcceptedIsRoute(text, [], "");
    } else if hops :| hops != [] && CleanHops(hops) && text == ScopeText(hops) {
      RouteTextIsNoDoubleLead(hops);
    }
  }

  lemma RouteTextIsNoDoubleLead(hops: seq<Hop>)
    requires hops != [] && CleanHops(hops)
    ensures !DoubleLead(Split(ScopeText(hops), ADDRESS_SCOPE)[0])
  {
    var segments := Segments(hops);
    forall p | p in segments
      ensures ADDRESS_SCOPE !in p
    {
      var i :| 0 <= i < |segments| && p == segments[i];
      assert hops[i] in hops;
    }
    SplitJoin(segments, ADDRESS_SCOPE);
    var f, c := hops[0].forwarder, hops[0].connection;
    assert hops[0] in hops;
    FindFirst(f, CLIENT_SCOPE, c);
    var s := segments[0];
    assert s == f + [CLIENT_SCOPE] + c;
    assert f != "" ==> s[0] == f[0] && f[0] in f;
    assert f == "" ==> s[1..] == c;
  }
}
