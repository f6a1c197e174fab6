/**
 Turning a client's address into the address of that client's server (`set_to_server_scope`), and comparing
 two clients by server (`compare_original_servers`, libs/client/api-remote-service.cpp).
 */
module ServerScope {
  import opened Text
  import opened Conversion

  /** The address left for the server at the end of the hops: the last connection stands alone. */
  function ServerAddress(hops: seq<Hop>): string
    requires hops != []
  {
    if |hops| == 1 then hops[0].connection
    else hops[1].forwarder + [CLIENT_SCOPE] + hops[0].connection + [ADDRESS_SCOPE] + ServerAddress(hops[1..])
  }

  function ServerRoute(hops: seq<Hop>): Target {
    if hops == [] then Target("", "") else Target(hops[0].forwarder, ServerAddress(hops))
  }

  function RouteSegments(hops: seq<Hop>, entity: string): (s: seq<string>)
    ensures |s| == |hops|
  {
    if hops == [] then []
    else [Route(hops[1..], entity).entity + [CLIENT_SCOPE] + hops[0].connection] + RouteSegments(hops[1..], entity)
  }

  lemma CleanTail(hops: seq<Hop>, entity: string)
    requires hops != [] && CleanHops(hops) && Clean(entity)
    ensures Clean(hops[0].forwarder) && Clean(hops[0].connection)
    ensures CleanHops(hops[1..]) && Clean(Route(hops[1..], entity).entity)
    ensures |hops| > 1 ==> Route(hops[1..], entity).entity == hops[1].forwarder
  {
    assert hops[0] in hops;
    if |hops| > 1 {
      assert hops[1] in hops;
    }
  }

  lemma {:induction false} SplitRoute(hops: seq<Hop>, entity: string)
    requires hops != [] && CleanHops(hops) && Clean(entity)
    ensures Split(Route(hops, entity).address, ADDRESS_SCOPE) == RouteSegments(hops, entity)
  {
    CleanTail(hops, entity);
    var rest := Route(hops[1..], entity);
    var first := rest.entity + [CLIENT_SCOPE] + hops[0].connection;
    FirstSegment(hops, entity, first);
    assert Split(first, ADDRESS_SCOPE) == [first];
    assert RouteSegments(hops, entity) == [first] + RouteSegments(hops[1..], entity);
    if |hops| > 1 {
      SplitRoute(hops[1..], entity);
      SplitConcat(first, ADDRESS_SCOPE, rest.address);
    } else {
      assert [first] + [] == [first];
    }
  }

  lemma {:induction false} SegmentsScoped(hops: seq<Hop>, entity: string)
    ensures forall s :: s in RouteSegments(hops, entity) ==> s != "" && CLIENT_SCOPE in s
    decreases |hops|
  {
    if hops != [] {
      var first := Route(hops[1..], entity).entity + [CLIENT_SCOPE] + hops[0].connection;
      assert first[|Route(hops[1..], entity).entity|] == CLIENT_SCOPE;
      SegmentsScoped(hops[1..], entity);
    }
  }

  lemma FirstSegment(hops: seq<Hop>, entity: string, first: string)
    requires hops != [] && CleanHops(hops) && Clean(entity)
    requires first == Route(hops[1..], entity).entity + [CLIENT_SCOPE] + hops[0].connection
    ensures first != "" && CLIENT_SCOPE in first && ADDRESS_SCOPE !in first
    ensures Route(hops, entity).address
         == if |hops| == 1 then first else first + [ADDRESS_SCOPE] + Route(hops[1..], entity).address
  {
    CleanTail(hops, entity);
    var rest := Route(hops[1..], entity);
    SegmentShape(rest.entity, hops[0].connection);
    RouteEmpty(hops[1..], entity);
    ExtendedAddress(rest, hops[0].forwarder, hops[0].connection);
    assert Route(hops, entity) == Extended(rest, hops[0].forwarder, hops[0].connection);
  }

  lemma ExtendedAddress(t: Target, client: string, connection: string)
    ensures var first := t.entity + [CLIENT_SCOPE] + connection;
            Extended(t, client, connection).address
            == if t.address == "" then first else first + [ADDRESS_SCOPE] + t.address
  {
    assert t.entity + [CLIENT_SCOPE] + (connection + [ADDRESS_SCOPE] + t.address)
        == t.entity + [CLIENT_SCOPE] + connection + [ADDRESS_SCOPE] + t.address;
  }

  lemma SegmentShape(entity: string, connection: string)
    requires Clean(entity) && Clean(connection)
    ensures var s := entity + [CLIENT_SCOPE] + connection; s != "" && CLIENT_SCOPE in s && ADDRESS_SCOPE !in s
  {
    var s := entity + [CLIENT_SCOPE] + connection;
    assert s[|entity|] == CLIENT_SCOPE;
  }

  lemma {:induction false} SplitServerAddress(hops: seq<Hop>, entity: string)
    requires hops != [] && CleanHops(hops) && Clean(entity)
    ensures Split(ServerAddress(hops), ADDRESS_SCOPE)
         == RouteSegments(hops, entity)[..|hops| - 1] + [hops[|hops| - 1].connection]
  {
    CleanTail(hops, entity);
    if |hops| > 1 {
      var first := hops[1].forwarder + [CLIENT_SCOPE] + hops[0].connection;
      SplitServerAddress(hops[1..], entity);
      SplitConcat(first, ADDRESS_SCOPE, ServerAddress(hops[1..]));
      SegmentShape(hops[1].forwarder, hops[0].connection);
      assert Split(first, ADDRESS_SCOPE) == [first];
      SegmentsOnward(hops, entity);
      TakeOnward(first, RouteSegments(hops[1..], entity), |hops| - 2, hops[|hops| - 1].connection);
    }
  }

  lemma SegmentsOnward(hops: seq<Hop>, entity: string)
    requires |hops| > 1
    ensures RouteSegments(hops, entity)
         == [hops[1].forwarder + [CLIENT_SCOPE] + hops[0].connection] + RouteSegments(hops[1..], entity)
  {
    RouteEmpty(hops[1..], entity);
  }

  lemma TakeOnward(first: string, more: seq<string>, n: nat, last: string)
    requires n <= |more|
    ensures [first] + (more[..n] + [last]) == ([first] + more)[..n + 1] + [last]
  {
  }

  lemma {:induction false} JoinedIsJoin(parts: seq<string>)
    requires |parts| > 0 && forall p :: p in parts ==> p != ""
    ensures JoinedNonEmpty(parts) == Join(parts, ADDRESS_SCOPE) != ""
  {
    assert parts[0] in parts;
    if |parts| > 1 {
      assert forall p :: p in parts[1..] ==> p in parts;
      JoinedIsJoin(parts[1..]);
    }
  }

  lemma {:induction false} JoinedDropsLast(parts: seq<string>)
    ensures JoinedNonEmpty(parts + [""]) == JoinedNonEmpty(parts)
  {
    if parts != [] {
      assert (parts + [""])[1..] == parts[1..] + [""];
      JoinedDropsLast(parts[1..]);
    }
  }

  lemma LastSegment(hops: seq<Hop>, entity: string)
    requires hops != [] && CleanHops(hops) && Clean(entity)
    ensures var n := |hops| - 1;
            RouteSegments(hops, entity)[n] == entity + [CLIENT_SCOPE] + hops[n].connection
    ensures Peeled(RouteSegments(hops, entity)[|hops| - 1]).address == hops[|hops| - 1].connection
    decreases |hops|
  {
    if |hops| == 1 {
      FindFirst(entity, CLIENT_SCOPE, hops[0].connection);
    } else {
      LastSegment(hops[1..], entity);
      var n := |hops| - 1;
      assert RouteSegments(hops, entity)[n] == RouteSegments(hops[1..], entity)[n - 1];
      assert hops[n] == hops[1..][n - 1];
    }
  }

  lemma {:induction false} SegmentsFront(hops: seq<Hop>, entity: string)
    requires |hops| > 1
    ensures var n := |hops| - 1;
            RouteSegments(hops, entity)[..n] == RouteSegments(hops[..n], hops[n].forwarder)
    decreases |hops|
  {
    var n := |hops| - 1;
    var front := hops[..n];
    assert front[1..] == hops[1..][..n - 1];
    if n > 1 {
      SegmentsFront(hops[1..], entity);
      RouteEmpty(hops[1..], entity);
      RouteEmpty(front[1..], hops[n].forwarder);
    }
  }

  /**
   What `set_to_server_scope` makes of a client's address. With a named last connection the hops stay and the
   command goes to the server behind them; with an unnamed one the last hop is lost, and the command is
   addressed to the last forwarder as if that were the recipient.
   */
  lemma ToServerExact(hops: seq<Hop>, entity: string)
    requires CleanHops(hops) && Clean(entity)
    ensures hops == [] || hops[|hops| - 1].connection != ""
         ==> ToServer(Route(hops, entity)) == ServerRoute(hops)
    ensures hops != [] && hops[|hops| - 1].connection == ""
         ==> ToServer(Route(hops, entity)) == Route(hops[..|hops| - 1], hops[|hops| - 1].forwarder)
  {
    if hops != [] {
      RouteEmpty(hops, entity);
      ToServerSegments(hops, entity);
      if hops[|hops| - 1].connection != "" {
        ToServerKeepsHop(hops, entity);
      } else {
        JoinedDropsLast(RouteSegments(hops, entity)[..|hops| - 1]);
        ToServerDropsHop(hops, entity);
        RouteEmpty(hops[..|hops| - 1], hops[|hops| - 1].forwarder);
      }
    }
  }

  lemma ToServerKeepsHop(hops: seq<Hop>, entity: string)
    requires hops != [] && CleanHops(hops) && Clean(entity) && hops[|hops| - 1].connection != ""
    ensures var n := |hops| - 1;
            JoinedNonEmpty(RouteSegments(hops, entity)[..n] + [hops[n].connection]) == ServerAddress(hops)
  {
    var n := |hops| - 1;
    ToServerSegments(hops, entity);
    SplitServerAddress(hops, entity);
    JoinedIsJoin(RouteSegments(hops, entity)[..n] + [hops[n].connection]);
    JoinSplit(ServerAddress(hops), ADDRESS_SCOPE);
  }

  /** The last segment is stripped of the recipient, and the others stay. */
  lemma ToServerSegments(hops: seq<Hop>, entity: string)
    requires hops != [] && CleanHops(hops) && Clean(entity)
    ensures var n := |hops| - 1;
            var front := RouteSegments(hops, entity)[..n];
            && (forall s :: s in front ==> s != "")
            && ToServer(Route(hops, entity))
               == Target(Route(hops, entity).entity, JoinedNonEmpty(front + [hops[n].connection]))
  {
    var segments := RouteSegments(hops, entity);
    var front := segments[..|hops| - 1];
    SplitRoute(hops, entity);
    SegmentsScoped(hops, entity);
    LastSegment(hops, entity);
    RouteEmpty(hops, entity);
    forall s | s in front
      ensures s != ""
    {
      assert s in segments;
    }
  }

  lemma ToServerDropsHop(hops: seq<Hop>, entity: string)
    requires hops != [] && CleanHops(hops) && Clean(entity)
    ensures var n := |hops| - 1;
            JoinedNonEmpty(RouteSegments(hops, entity)[..n]) == Route(hops[..n], hops[n].forwarder).address
  {
    var n := |hops| - 1;
    if n > 0 {
      assert hops[n] in hops;
      SegmentsFront(hops, entity);
      SplitRoute(hops[..n], hops[n].forwarder);
      SegmentsScoped(hops[..n], hops[n].forwarder);
      JoinedIsJoin(RouteSegments(hops[..n], hops[n].forwarder));
      JoinSplit(Route(hops[..n], hops[n].forwarder).address, ADDRESS_SCOPE);
    }
  }

  /** A command for a server keeps to the hops, and each of them leaves it addressed to the rest. */
  lemma {:induction false} ServerRoutePeels(hops: seq<Hop>)
    requires hops != [] && CleanHops(hops)
    ensures var t := ServerRoute(hops);
            var sent := Peeled(t.address);
            && Before(sent.address, ADDRESS_SCOPE) == hops[0].connection
            && Target(sent.entity, Remaining(sent.address)) == ServerRoute(hops[1..])
  {
    CleanTail(hops, "");
    var c := hops[0].connection;
    FindNone(c, ADDRESS_SCOPE);
    if |hops| > 1 {
      var tail := ServerAddress(hops[1..]);
      var f := hops[1].forwarder;
      assert ServerAddress(hops) == f + [CLIENT_SCOPE] + (c + [ADDRESS_SCOPE] + tail);
      FindFirst(f, CLIENT_SCOPE, c + [ADDRESS_SCOPE] + tail);
      FindFirst(c, ADDRESS_SCOPE, tail);
    }
  }

  lemma {:induction false} ToServerOfServerRoute(hops: seq<Hop>)
    requires CleanHops(hops)
    requires hops == [] || hops[|hops| - 1].connection != ""
    ensures ToServer(ServerRoute(hops)) == ServerRoute(hops)
  {
    if hops != [] {
      var n := |hops| - 1;
      assert hops[n] in hops;
      SplitServerAddress(hops, "");
      SplitRoute(hops, "");
      SegmentsScoped(hops, "");
      var parts := Split(ServerAddress(hops), ADDRESS_SCOPE);
      forall p | p in parts
        ensures p != ""
      {
        if p in RouteSegments(hops, "")[..n] {
          assert p in RouteSegments(hops, "");
        }
      }
      JoinedIsJoin(parts);
      JoinSplit(ServerAddress(hops), ADDRESS_SCOPE);
      assert parts[..n] + [parts[n]] == parts;
    }
  }

  lemma {:induction false} ServerAddressShorter(hops: seq<Hop>, entity: string)
    requires hops != [] && CleanHops(hops) && Clean(entity)
    ensures |ServerAddress(hops)| < |Route(hops, entity).address|
  {
    RouteEmpty(hops[1..], entity);
    if |hops| > 1 {
      ServerAddressShorter(hops[1..], entity);
    }
  }

  /** Doing it twice changes nothing exactly when no hop was lost, or when nothing was left to lose. */
  lemma ToServerIdempotent(hops: seq<Hop>, entity: string)
    requires CleanHops(hops) && Clean(entity)
    ensures var once := ToServer(Route(hops, entity));
            ToServer(once) == once
            <==> hops == [] || hops[|hops| - 1].connection != "" || (|hops| == 1 && hops[0].forwarder == "")
  {
    ToServerExact(hops, entity);
    if hops == [] || hops[|hops| - 1].connection != "" {
      ToServerOfServerRoute(hops);
    } else {
      var n := |hops| - 1;
      var front, last := hops[..n], hops[n].forwarder;
      assert hops[n] in hops;
      if n > 0 {
        ToServerExact(front, last);
        ServerAddressShorter(front, last);
        RouteShorter(front, last);
      }
    }
  }

  lemma {:induction false} RouteShorter(hops: seq<Hop>, entity: string)
    requires hops != [] && CleanHops(hops) && Clean(entity)
    ensures |Route(hops[..|hops| - 1], hops[|hops| - 1].forwarder).address| < |Route(hops, entity).address|
    decreases |hops|
  {
    var n := |hops| - 1;
    if n > 0 {
      RouteShorter(hops[1..], entity);
      assert hops[..n][1..] == hops[1..][..n - 1];
      RouteEmpty(hops[1..], entity);
      RouteEmpty(hops[..n][1..], hops[n].forwarder);
    }
  }

  // ---------------------------------------------------------------- comparing servers

  method CompareOriginalServers(client1: string, server1: string, client2: string, server2: string)
    returns (same: bool)
    ensures same <==> ToServer(Target(client1, server1)) == ToServer(Target(client2, server2))
  {
    var ok, leftClient, leftServer := SetToServerScope(client1, server1);
    if !ok {
      return false;
    }
    var rightClient, rightServer;
    ok, rightClient, rightServer := SetToServerScope(client2, server2);
    if !ok {
      return false;
    }
    same := leftClient == rightClient && leftServer == rightServer;
  }

  lemma {:induction false} ServerRouteInjective(hops1: seq<Hop>, hops2: seq<Hop>)
    requires CleanHops(hops1) && CleanHops(hops2) && hops1 != [] && hops2 != []
    requires ServerRoute(hops1) == ServerRoute(hops2)
    ensures hops1 == hops2
  {
    assert |hops1| == |hops2| by {
      SplitServerAddress(hops1, "");
      SplitServerAddress(hops2, "");
    }
    assert hops1[0] == hops2[0] && ServerRoute(hops1[1..]) == ServerRoute(hops2[1..]) by {
      ServerRoutePeels(hops1);
      ServerRoutePeels(hops2);
    }
    if |hops1| > 1 {
      ServerRouteInjective(hops1[1..], hops2[1..]);
    }
    assert hops1 == [hops1[0]] + hops1[1..] && hops2 == [hops2[0]] + hops2[1..];
  }

  lemma ServerRouteIsNoRoute(hops1: seq<Hop>, hops2: seq<Hop>, entity: string)
    requires CleanHops(hops1) && CleanHops(hops2) && Clean(entity) && hops1 != [] && hops2 != []
    ensures ServerAddress(hops1) != Route(hops2, entity).address
  {
    SplitServerAddress(hops1, "");
    SplitRoute(hops2, entity);
    SegmentsScoped(hops2, entity);
    var parts1, parts2 := Split(ServerAddress(hops1), ADDRESS_SCOPE), RouteSegments(hops2, entity);
    assert hops1[|hops1| - 1] in hops1;
    assert CLIENT_SCOPE !in parts1[|parts1| - 1];
    assert parts2[|parts2| - 1] in parts2;
  }

  /** No hops, or one that names neither forwarder nor connection: nothing that shows in a server's address. */
  predicate Nowhere(hops: seq<Hop>) {
    hops == [] || hops == [Hop("", "")]
  }

  /**
   Two clients compare as being on the same server exactly when the same hops lead to both, or none that show. This
   holds for all routes, named or not.
   */
  lemma SameServerIffSameHops(hops1: seq<Hop>, entity1: string, hops2: seq<Hop>, entity2: string)
    requires CleanHops(hops1) && CleanHops(hops2) && Clean(entity1) && Clean(entity2)
    ensures ToServer(Route(hops1, entity1)) == ToServer(Route(hops2, entity2))
            <==> hops1 == hops2 || (Nowhere(hops1) && Nowhere(hops2))
  {
    ToServerExact(hops1, entity1);
    ToServerExact(hops2, entity2);
    if hops1 == [] {
      NowhereExact(hops2, entity2);
    } else if hops2 == [] {
      NowhereExact(hops1, entity1);
    } else if hops1 != hops2 {
      DifferentHopsDifferentServers(hops1, entity1, hops2, entity2);
    }
  }

  lemma NowhereExact(hops: seq<Hop>, entity: string)
    requires CleanHops(hops) && Clean(entity)
    ensures ToServer(Route(hops, entity)) == Target("", "") <==> Nowhere(hops)
  {
    ToServerExact(hops, entity);
    if hops != [] {
      var n := |hops| - 1;
      if hops[n].connection != "" {
        ServerAddressNamed(hops);
      } else {
        RouteEmpty(hops[..n], hops[n].forwarder);
        assert hops[n] == Hop(hops[n].forwarder, "");
        assert n == 0 ==> hops == [hops[0]];
      }
    }
  }

  lemma ServerAddressNamed(hops: seq<Hop>)
    requires hops != [] && hops[|hops| - 1].connection != ""
    ensures ServerAddress(hops) != ""
  {
    if |hops| > 1 {
      assert hops[1].forwarder + [CLIENT_SCOPE] + hops[0].connection + [ADDRESS_SCOPE] != "";
    }
  }

  lemma DifferentHopsDifferentServers(hops1: seq<Hop>, entity1: string, hops2: seq<Hop>, entity2: string)
    requires CleanHops(hops1) && CleanHops(hops2) && Clean(entity1) && Clean(entity2)
    requires hops1 != [] && hops2 != [] && hops1 != hops2
    ensures ToServer(Route(hops1, entity1)) != ToServer(Route(hops2, entity2))
  {
    ToServerExact(hops1, entity1);
    ToServerExact(hops2, entity2);
    var n1, n2 := |hops1| - 1, |hops2| - 1;
    var l1, l2 := hops1[n1], hops2[n2];
    assert l1 in hops1 && l2 in hops2;
    if l1.connection != "" && l2.connection != "" {
      if ServerRoute(hops1) == ServerRoute(hops2) {
        ServerRouteInjective(hops1, hops2);
      }
    } else if l1.connection != "" {
      ServerAgainstShortened(hops1, hops2, l2.forwarder);
    } else if l2.connection != "" {
      ServerAgainstShortened(hops2, hops1, l1.forwarder);
    } else if Route(hops1[..n1], l1.forwarder) == Route(hops2[..n2], l2.forwarder) {
      ShortenedInjective(hops1, hops2);
    }
  }

  lemma ShortenedInjective(hops1: seq<Hop>, hops2: seq<Hop>)
    requires CleanHops(hops1) && CleanHops(hops2) && hops1 != [] && hops2 != []
    requires hops1[|hops1| - 1].connection == hops2[|hops2| - 1].connection
    requires Route(hops1[..|hops1| - 1], hops1[|hops1| - 1].forwarder)
          == Route(hops2[..|hops2| - 1], hops2[|hops2| - 1].forwarder)
    ensures hops1 == hops2
  {
    var n1, n2 := |hops1| - 1, |hops2| - 1;
    var l1, l2 := hops1[n1], hops2[n2];
    assert l1 in hops1 && l2 in hops2;
    RouteInjective(hops1[..n1], l1.forwarder, hops2[..n2], l2.forwarder);
    assert hops1 == hops1[..n1] + [l1] && hops2 == hops2[..n2] + [l2];
  }

  lemma ServerAgainstShortened(hops1: seq<Hop>, hops2: seq<Hop>, entity: string)
    requires CleanHops(hops1) && CleanHops(hops2) && Clean(entity) && hops1 != [] && hops2 != []
    requires hops1[|hops1| - 1].connection != ""
    ensures ServerRoute(hops1) != Route(hops2[..|hops2| - 1], entity)
  {
    var front := hops2[..|hops2| - 1];
    if front == [] {
      ServerAddressNamed(hops1);
    } else {
      ServerRouteIsNoRoute(hops1, front, entity);
    }
  }
}
