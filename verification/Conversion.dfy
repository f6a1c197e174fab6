/**
 Address strings of forwarded commands (libs/protocol/conversion.cpp).

 A command travels with a target entity and a target address. The address interleaves the two kinds of
 names a forwarder needs: in `(f1, "f2?c1|E?c2")` the command goes to forwarder f1, which sends it out
 on connection c1 to forwarder f2, which sends it out on c2 to the final entity E.
 */
module Conversion {
  import opened Text

  const CLIENT_SCOPE: char := '?'
  const ADDRESS_SCOPE: char := '|'

  datatype Target = Target(entity: string, address: string)

  /** One forwarding hop: the client that forwards, and the connection it sends out on. */
  datatype Hop = Hop(forwarder: string, connection: string)

  predicate Clean(name: string) {
    CLIENT_SCOPE !in name && ADDRESS_SCOPE !in name
  }

  ghost predicate CleanHops(hops: seq<Hop>) {
    forall h :: h in hops ==> Clean(h.forwarder) && Clean(h.connection)
  }

  // ---------------------------------------------------------------- specification of the rewriting

  /** What a forwarder makes of the target address before it sends. */
  function Peeled(address: string): Target {
    if CLIENT_SCOPE in address
    then Target(Before(address, CLIENT_SCOPE), After(address, CLIENT_SCOPE))
    else Target("", address)
  }

  /** What is left of the address on the far side of a connection. */
  function Remaining(address: string): string {
    if ADDRESS_SCOPE in address then After(address, ADDRESS_SCOPE) else ""
  }

  function Prepended(current: string, address: string): string {
    if current != "" then address + [ADDRESS_SCOPE] + current else address
  }

  /** An address with the client that it is for in front. */
  function Scoped(client: string, address: string): string {
    client + [CLIENT_SCOPE] + address
  }

  function Extended(t: Target, client: string, connection: string): Target {
    Target(client, Scoped(t.entity, Prepended(t.address, connection)))
  }

  /** Segments go in from the last to the first, up to one that names no connection. */
  function Inserted(t: Target, segments: seq<string>): Target
    decreases |segments|
  {
    if segments == [] then t
    else
      var last := segments[|segments| - 1];
      if CLIENT_SCOPE !in last then t
      else Inserted(Extended(t, Before(last, CLIENT_SCOPE), After(last, CLIENT_SCOPE)), segments[..|segments| - 1])
  }

  function JoinedNonEmpty(segments: seq<string>): string {
    if segments == [] then ""
    else if segments[0] == "" then JoinedNonEmpty(segments[1..])
    else Prepended(JoinedNonEmpty(segments[1..]), segments[0])
  }

  function ToServer(t: Target): Target {
    if t.address == "" then Target("", "")
    else
      var segments := Split(t.address, ADDRESS_SCOPE);
      var n := |segments| - 1;
      Target(t.entity, JoinedNonEmpty(segments[..n] + [Peeled(segments[n]).address]))
  }

  // ---------------------------------------------------------------- the routines

  /** libc's `strsep` on a live pointer, for a one-character separator. */
  function StrSep(text: string, sep: char): (string, Option<string>) {
    if sep in text then (Before(text, sep), Some(After(text, sep))) else (text, None)
  }

  method NextClientScope(address: string) returns (ok: bool, client': string, address': string)
    ensures ok && Target(client', address') == Peeled(address)
  {
    var (working, rest) := StrSep(address, CLIENT_SCOPE);
    if rest.Some? {
      client' := working;
      address' := rest.value;
    } else {
      client' := "";
      address' := working;
    }
    ok := true;
  }

  method NextAddressScope(address: string) returns (ok: bool, address': string)
    ensures ok && address' == Remaining(address)
  {
    var (working, rest) := StrSep(address, ADDRESS_SCOPE);
    address' := if rest.Some? then rest.value else "";
    ok := true;
  }

  method CopyNextScope(address: string) returns (ok: bool, copy: string)
    ensures ok && copy == Before(address, ADDRESS_SCOPE)
  {
    var (working, rest) := StrSep(address, ADDRESS_SCOPE);
    if rest.None? {
      FindNone(address, ADDRESS_SCOPE);
    }
    copy := working;
    ok := true;
  }

  method InsertRemoteAddress(current: string, address: string) returns (current': string)
    ensures current' == Prepended(current, address)
  {
    if |current| != 0 {
      current' := address + [ADDRESS_SCOPE] + current;
    } else {
      current' := address;
    }
  }

  /** A client takes the address behind its name, and the next party to peel the result gets both back. */
  method InsertRemoteClient(current: string, client: string) returns (current': string)
    ensures current' == Scoped(client, current)
    ensures CLIENT_SCOPE !in client ==> Peeled(current') == Target(client, current)
  {
    if CLIENT_SCOPE !in client {
      FindFirst(client, CLIENT_SCOPE, current);
    }
    current' := client + [CLIENT_SCOPE] + current;
  }

  method InsertSeparateScope(client: string, address: string, nextClient: string, nextAddress: string)
    returns (client': string, address': string)
    ensures Target(client', address') == Extended(Target(client, address), nextClient, nextAddress)
  {
    address' := InsertRemoteAddress(address, nextAddress);
    address' := InsertRemoteClient(address', client);
    client' := nextClient;
  }

  method PrependExistingScope(address: string, nextAddress: string) returns (address': string)
    ensures address' == if nextAddress == "" then address else Prepended(address, nextAddress)
  {
    address' := address;
    if |nextAddress| != 0 {
      address' := InsertRemoteAddress(address, nextAddress);
    }
  }

  /** The loop both scope routines start with: every segment of `text`, last one at the front. */
  method PushSegments(text: string) returns (addresses: seq<string>)
    ensures Reversed(addresses) == Split(text, ADDRESS_SCOPE)
  {
    addresses := [];
    var remaining := Some(text);
    while remaining.Some?
      invariant Reversed(addresses) + (if remaining.Some? then Split(remaining.value, ADDRESS_SCOPE) else [])
             == Split(text, ADDRESS_SCOPE)
      decreases if remaining.Some? then 1 + |remaining.value| else 0
    {
      var (working, rest) := StrSep(remaining.value, ADDRESS_SCOPE);
      addresses := [working] + addresses;
      remaining := rest;
    }
  }

  method InsertExistingScope(client: string, address: string, scope: string)
    returns (client': string, address': string)
    ensures Target(client', address') == Inserted(Target(client, address), Split(scope, ADDRESS_SCOPE))
  {
    client', address' := client, address;
    var addresses := PushSegments(scope);
    while |addresses| != 0
      invariant Inserted(Target(client', address'), Reversed(addresses))
             == Inserted(Target(client, address), Split(scope, ADDRESS_SCOPE))
    {
      assert Reversed(addresses)[..|addresses| - 1] == Reversed(addresses[1..]);
      var (nextClient, nextAddress) := StrSep(addresses[0], CLIENT_SCOPE);
      if nextAddress.None? {
        break;
      }
      client', address' := InsertSeparateScope(client', address', nextClient, nextAddress.value);
      addresses := addresses[1..];
    }
  }

  method SetToServerScope(client: string, address: string)
    returns (ok: bool, client': string, address': string)
    ensures ok && Target(client', address') == ToServer(Target(client, address))
  {
    client', address' := client, address;
    if |address| == 0 {
      client' := "";
      return true, client', address';
    }
    var addresses := PushSegments(address);
    ghost var segments := Split(address, ADDRESS_SCOPE);
    ghost var n := |segments| - 1;
    assert segments[n] == addresses[0] && segments[..n] == Reversed(addresses[1..]);
    var stripped, discard, front := NextClientScope(addresses[0]);
    addresses := [front] + addresses[1..];
    assert Reversed(addresses) == segments[..n] + [Peeled(segments[n]).address];

    address' := "";
    ghost var done: seq<string> := [];
    while |addresses| != 0
      invariant Reversed(addresses) + done == segments[..n] + [Peeled(segments[n]).address]
      invariant address' == JoinedNonEmpty(done)
    {
      done := [addresses[0]] + done;
      address' := PrependExistingScope(address', addresses[0]);
      addresses := addresses[1..];
    }
    assert done == segments[..n] + [Peeled(segments[n]).address];
    ok := true;
  }

  // ---------------------------------------------------------------- what the addresses mean

  /** The address of `entity` behind the given hops. */
  function Route(hops: seq<Hop>, entity: string): Target {
    if hops == [] then Target(entity, "")
    else Extended(Route(hops[1..], entity), hops[0].forwarder, hops[0].connection)
  }

  function Segment(h: Hop): string {
    Scoped(h.forwarder, h.connection)
  }

  function Segments(hops: seq<Hop>): (s: seq<string>)
    ensures |s| == |hops|
    ensures forall i :: 0 <= i < |s| ==> s[i] == Segment(hops[i])
  {
    if hops == [] then [] else [Segment(hops[0])] + Segments(hops[1..])
  }

  /** The scope text a user writes for a list of hops. */
  function ScopeText(hops: seq<Hop>): string
    requires hops != []
  {
    Join(Segments(hops), ADDRESS_SCOPE)
  }

  lemma {:induction false} RouteEmpty(hops: seq<Hop>, entity: string)
    ensures Route(hops, entity).address == "" <==> hops == []
    ensures hops != [] ==> Route(hops, entity).entity == hops[0].forwarder
  {
  }

  /** Forwarding over the first hop: the forwarder reads its own connection, the far side gets the rest. */
  lemma {:induction false} RoutePeels(hops: seq<Hop>, entity: string)
    requires hops != [] && CleanHops(hops) && Clean(entity)
    ensures var t := Route(hops, entity);
            var rest := Route(hops[1..], entity);
            var sent := Peeled(t.address);
            && t.entity == hops[0].forwarder
            && Before(sent.address, ADDRESS_SCOPE) == hops[0].connection
            && Target(sent.entity, Remaining(sent.address)) == rest
  {
    var rest := Route(hops[1..], entity);
    var c := hops[0].connection;
    assert hops[0] in hops;
    assert Clean(rest.entity) by {
      if |hops| > 1 {
        assert hops[1] in hops;
      }
    }
    FindFirst(rest.entity, CLIENT_SCOPE, Prepended(rest.address, c));
    if rest.address == "" {
      FindNone(c, ADDRESS_SCOPE);
    } else {
      FindFirst(c, ADDRESS_SCOPE, rest.address);
    }
  }

  /** Distinct routes have distinct addresses. */
  lemma {:induction false} RouteInjective(hops1: seq<Hop>, entity1: string, hops2: seq<Hop>, entity2: string)
    requires CleanHops(hops1) && CleanHops(hops2) && Clean(entity1) && Clean(entity2)
    requires Route(hops1, entity1) == Route(hops2, entity2)
    ensures hops1 == hops2 && entity1 == entity2
  {
    RouteEmpty(hops1, entity1);
    RouteEmpty(hops2, entity2);
    if hops1 != [] {
      RoutePeels(hops1, entity1);
      RoutePeels(hops2, entity2);
      RouteInjective(hops1[1..], entity1, hops2[1..], entity2);
      assert hops1 == [hops1[0]] + hops1[1..] && hops2 == [hops2[0]] + hops2[1..];
    }
  }

  lemma {:induction false} SegmentsLast(hops: seq<Hop>)
    requires hops != [] && CleanHops(hops)
    ensures Segments(hops) == Segments(hops[..|hops| - 1]) + [Segment(hops[|hops| - 1])]
    ensures Clean(hops[|hops| - 1].forwarder)
  {
    var n := |hops| - 1;
    assert hops[n] in hops;
    var all, front := Segments(hops), Segments(hops[..n]);
    hide Segments, Segment, Clean;
    assert |front| == n && |all| == n + 1;
    forall i | 0 <= i < n ensures all[i] == front[i] {
      assert hops[..n][i] == hops[i];
    }
    assert all == front + [all[n]];
  }

  lemma InsertedStep(t: Target, segments: seq<string>, h: Hop)
    requires Clean(h.forwarder)
    ensures Inserted(t, segments + [Segment(h)]) == Inserted(Extended(t, h.forwarder, h.connection), segments)
  {
    var all := segments + [Segment(h)];
    FindFirst(h.forwarder, CLIENT_SCOPE, h.connection);
    assert all[|all| - 1] == Segment(h) && all[..|all| - 1] == segments;
  }

  lemma RouteStep(h: Hop, inner: seq<Hop>, entity: string)
    ensures Route([h] + inner, entity) == Extended(Route(inner, entity), h.forwarder, h.connection)
  {
    assert ([h] + inner)[1..] == inner;
  }

  lemma LastMoves<T>(s: seq<T>, t: seq<T>)
    requires s != []
    ensures s[..|s| - 1] + ([s[|s| - 1]] + t) == s + t
  {
    assert s == s[..|s| - 1] + [s[|s| - 1]];
  }

  lemma {:induction false} InsertSegments(hops: seq<Hop>, inner: seq<Hop>, entity: string)
    requires CleanHops(hops)
    ensures Inserted(Route(inner, entity), Segments(hops)) == Route(hops + inner, entity)
    decreases |hops|
  {
    if hops == [] {
      assert hops + inner == inner;
    } else {
      var n := |hops| - 1;
      var last, front := hops[n], hops[..n];
      SegmentsLast(hops);
      var t := Route(inner, entity);
      var t' := Extended(t, last.forwarder, last.connection);
      InsertedStep(t, Segments(front), last);
      assert Inserted(t, Segments(hops)) == Inserted(t', Segments(front));
      assert t' == Route([last] + inner, entity) by {
        RouteStep(last, inner, entity);
      }
      assert Inserted(t', Segments(front)) == Route(front + ([last] + inner), entity) by {
        InsertSegments(front, [last] + inner, entity);
      }
      LastMoves(hops, inner);
    }
  }

  /** Inserting a written scope puts exactly its hops, in the order written, before the hops already there. */
  lemma InsertBuildsRoute(hops: seq<Hop>, inner: seq<Hop>, entity: string)
    requires hops != [] && CleanHops(hops)
    ensures Inserted(Route(inner, entity), Split(ScopeText(hops), ADDRESS_SCOPE)) == Route(hops + inner, entity)
  {
    forall p | p in Segments(hops)
      ensures ADDRESS_SCOPE !in p
    {
      var i :| 0 <= i < |hops| && p == Segment(hops[i]);
      assert hops[i] in hops;
    }
    SplitJoin(Segments(hops), ADDRESS_SCOPE);
    InsertSegments(hops, inner, entity);
  }

  // ---------------------------------------------------------------- composition of insertions

  /** Every segment of the scope names a connection. */
  ghost predicate Complete(segments: seq<string>) {
    forall s :: s in segments ==> CLIENT_SCOPE in s
  }

  lemma {:induction false} InsertConcat(t: Target, outer: seq<string>, inner: seq<string>)
    ensures Inserted(t, outer + inner)
         == if Complete(inner) then Inserted(Inserted(t, inner), outer) else Inserted(t, inner)
    decreases |inner|
  {
    if inner == [] {
      assert outer + inner == outer;
    } else {
      var n := |inner| - 1;
      var last := inner[n];
      assert last in inner;
      assert (outer + inner)[|outer + inner| - 1] == last;
      assert (outer + inner)[..|outer + inner| - 1] == outer + inner[..n];
      if CLIENT_SCOPE in last {
        InsertConcat(Extended(t, Before(last, CLIENT_SCOPE), After(last, CLIENT_SCOPE)), outer, inner[..n]);
        assert inner == inner[..n] + [last];
      }
    }
  }

  /**
   Two insertions are one insertion of the concatenated text exactly as far as the inner scope goes:
   an incomplete inner scope makes the single insertion stop before it reaches the outer one.
   */
  lemma InsertComposes(t: Target, outer: string, inner: string)
    ensures var once := Inserted(t, Split(outer + [ADDRESS_SCOPE] + inner, ADDRESS_SCOPE));
            var first := Inserted(t, Split(inner, ADDRESS_SCOPE));
            once == if Complete(Split(inner, ADDRESS_SCOPE))
                    then Inserted(first, Split(outer, ADDRESS_SCOPE))
                    else first
  {
    SplitConcat(outer, ADDRESS_SCOPE, inner);
    InsertConcat(t, Split(outer, ADDRESS_SCOPE), Split(inner, ADDRESS_SCOPE));
  }

  /** For scopes the address check lets through, inserting the inner then the outer one is one insertion. */
  lemma InsertTwice(t: Target, outer: seq<Hop>, inner: seq<Hop>)
    requires outer != [] && inner != [] && CleanHops(outer) && CleanHops(inner)
    ensures Inserted(t, Split(ScopeText(outer) + [ADDRESS_SCOPE] + ScopeText(inner), ADDRESS_SCOPE))
         == Inserted(Inserted(t, Split(ScopeText(inner), ADDRESS_SCOPE)), Split(ScopeText(outer), ADDRESS_SCOPE))
  {
    forall p | p in Segments(inner)
      ensures ADDRESS_SCOPE !in p && CLIENT_SCOPE in p
    {
      var i :| 0 <= i < |inner| && p == Segment(inner[i]);
      assert inner[i] in inner;
    }
    SplitJoin(Segments(inner), ADDRESS_SCOPE);
    InsertComposes(t, ScopeText(outer), ScopeText(inner));
  }
}
