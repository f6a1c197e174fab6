/**
 Forwarding of commands between servers: the addressing fields of a command
 (libs/client/api-command-queue.cpp, libs/client/command-queue.cpp, libs/client/api-message-queue.cpp)
 and whole journeys over a network of forwarders.
 */
module RouteProtocol {
  import opened Text
  import opened Conversion
  import opened ServerScope
  import opened LabelCheck

  /** The addressing fields of a command, as they are sent. */
  datatype Command = Command(orig: Target, target: Target)

  // ---------------------------------------------------------------- what each party makes of a command

  function Forwarded(c: Command): Command {
    c.(target := Peeled(c.target.address))
  }

  function Received(c: Command, name: string, via: string): Command {
    Command(Extended(c.orig, name, via), c.target.(address := Remaining(c.target.address)))
  }

  function Response(c: Command): Command {
    Command(Target(c.target.entity, ""), c.orig)
  }

  class CommandTransmit {
    var origEntity: string
    var origAddress: string
    var targetEntity: string
    var targetAddress: string
    var noSend: bool
    const noRemote: bool
    const response: bool

    function Addressing(): Command
      reads this
    {
      Command(Target(origEntity, origAddress), Target(targetEntity, targetAddress))
    }

    /** A new command of `entityName()` to a local client. */
    constructor (entityName: string, name: string, noRemote: bool, response: bool)
      ensures Addressing() == Command(Target(entityName, ""), Target(name, ""))
      ensures !noSend && this.noRemote == noRemote && this.response == response
    {
      origEntity, origAddress := entityName, "";
      targetEntity, targetAddress := name, "";
      noSend := false;
      this.noRemote := noRemote;
      this.response := response;
    }

    /**
     A command parsed from what came in on connection `via`. The receiver signs for it under the name it was
     given, or under its own.
     */
    static method InsertRemoteCommand(parsed: Command, name: Option<string>, via: string, entityName: string,
                                      noRemote: bool, response: bool)
      returns (c: CommandTransmit?)
      ensures c != null <==> EntityLabel(via)
      ensures c != null ==> fresh(c) && !c.noSend && c.noRemote == noRemote && c.response == response
      ensures c != null ==>
                c.Addressing() == Received(parsed, if name.Some? then name.value else entityName, via)
    {
      var isConnection := CheckEntityLabel(via);
      if !isConnection {
        return null;
      }
      c := new CommandTransmit(parsed.orig.entity, parsed.target.entity, noRemote, response);
      c.targetAddress := parsed.target.address;
      c.origAddress := Conversion.InsertRemoteAddress(parsed.orig.address, via);
      c.origAddress := InsertRemoteClient(c.origAddress, c.origEntity);
      c.origEntity := if name.Some? then name.value else entityName;
      var ok;
      ok, c.targetAddress := NextAddressScope(c.targetAddress);
      if !ok {
        return null;
      }
    }

    method InsertRemoteScope(scope: string) returns (ok: bool)
      modifies this`targetEntity, this`targetAddress
      ensures ok <==> !noSend && !noRemote && !response
      ensures Addressing() == if ok
                              then old(Addressing()).(target := Inserted(old(Addressing()).target, Split(scope, ADDRESS_SCOPE)))
                              else old(Addressing())
    {
      if noSend || noRemote || response {
        return false;
      }
      targetEntity, targetAddress := InsertExistingScope(targetEntity, targetAddress, scope);
      ok := true;
    }

    method InsertRemoteAddress(target: string) returns (ok: bool)
      modifies this`targetEntity, this`targetAddress
      ensures ok <==> target == ""
                      || (AddressLabel(target) && NextToClient(target) && !noSend && !noRemote && !response)
      ensures Addressing() == if ok && target != ""
                              then old(Addressing()).(target := Inserted(old(Addressing()).target, Split(target, ADDRESS_SCOPE)))
                              else old(Addressing())
    {
      if |target| == 0 {
        return true;
      }
      var isLabel := CheckAddressLabel(target);
      var isClient := CheckNextToClient(target);
      if !isLabel || !isClient {
        return false;
      }
      ok := InsertRemoteScope(target);
    }

    method InsertRemoteTarget(client: string, connection: string) returns (ok: bool)
      modifies this`targetEntity, this`targetAddress
      ensures ok <==> client != "" && EntityLabel(client) && EntityLabel(connection)
                      && !noSend && !noRemote && !response
      ensures Addressing() == if ok
                              then old(Addressing()).(target := Extended(old(Addressing()).target, client, connection))
                              else old(Addressing())
    {
      if |client| == 0 {
        return false;
      }
      var isClient := CheckEntityLabel(client);
      var isConnection := CheckEntityLabel(connection);
      if !isClient || !isConnection {
        return false;
      }
      var scope := InsertRemoteClient(connection, client);
      EntityLabelIsClean(client);
      EntityLabelIsClean(connection);
      FindNone(scope, ADDRESS_SCOPE);
      InsertedStep(old(Addressing()).target, [], Hop(client, connection));
      assert [] + [Segment(Hop(client, connection))] == [scope];
      ok := InsertRemoteScope(scope);
    }

    method SetTargetToServerOf(client: string, address: string) returns (ok: bool)
      modifies this`targetEntity, this`targetAddress
      ensures ok <==> client != "" && EntityLabel(client) && AddressLabel(address) && NextToClient(address)
                      && !noSend && !noRemote && !response
      ensures Addressing() == if ok
                              then old(Addressing()).(target := ToServer(Target(client, address)))
                              else old(Addressing())
    {
      if |client| == 0 {
        return false;
      }
      var isEntity := CheckEntityLabel(client);
      var isLabel := CheckAddressLabel(address);
      var isClient := CheckNextToClient(address);
      if !isEntity || !isLabel || !isClient || noSend || noRemote || response {
        return false;
      }
      ok, targetEntity, targetAddress := SetToServerScope(client, address);
    }

    /**
     The forwarder's side: the copy it queues for sending. There is none if the message is not one for another
     server, forwarding is blocked, or the copy cannot be queued.
     */
    static method RegisterRemote(original: CommandTransmit, remote: bool, blocked: bool, queued: bool)
      returns (copy: CommandTransmit?)
      ensures copy != null <==> remote && !blocked && queued
      ensures copy != null ==>
                && fresh(copy) && copy.noSend && copy.noRemote == original.noRemote && copy.response == original.response
                && copy.Addressing() == Forwarded(original.Addressing())
    {
      if !remote || blocked {
        return null;
      }
      copy := new CommandTransmit(original.origEntity, original.targetEntity, original.noRemote, original.response);
      copy.origAddress, copy.targetAddress := original.origAddress, original.targetAddress;
      copy.noSend := true;
      var ok;
      ok, copy.targetEntity, copy.targetAddress := NextClientScope(copy.targetAddress);
      if !ok || !queued {
        return null;
      }
    }

    /** The connection the forwarder is asked to send out on. */
    method NextRemoteAddress() returns (copy: Option<string>)
      ensures copy == if noSend then Some(Before(targetAddress, ADDRESS_SCOPE)) else None
    {
      if !noSend {
        return None;
      }
      var ok, next := CopyNextScope(targetAddress);
      copy := Some(next);
    }

    /** The addressing of a reply to a message that arrived as `original`. */
    method CopyMessageResponse(original: Command)
      modifies this`origEntity, this`origAddress, this`targetEntity, this`targetAddress
      ensures Addressing() == Response(original)
    {
      origEntity := original.target.entity;
      origAddress := "";
      targetEntity := original.orig.entity;
      targetAddress := original.orig.address;
    }
  }

  // ---------------------------------------------------------------- the network

  /** One end of a link between servers: a forwarder registered on a server, and its name for the connection. */
  datatype Port = Port(server: nat, forwarder: string, connection: string)

  /** Which end a command comes out of. */
  type Network = map<Port, Port>

  ghost predicate TwoWay(net: Network) {
    forall p :: p in net ==> net[p] in net && net[net[p]] == p
  }

  /** Names pass the check they are registered or received under. */
  ghost predicate WellNamed(net: Network) {
    forall p :: p in net ==>
      && EntityLabel(p.forwarder) && EntityLabel(p.connection)
      && EntityLabel(net[p].forwarder) && EntityLabel(net[p].connection)
  }

  datatype Outcome =
    | Arrived(server: nat, command: Command, ports: seq<Port>)
    | Lost(at: Port)

  /**
   The journey of a command that is on a server: while it has an address it goes to the client named as its
   target, which forwards it over the next connection.
   */
  function Travel(net: Network, server: nat, c: Command): Outcome
    decreases |c.target.address|
  {
    if c.target.address == "" then Arrived(server, c, [])
    else
      var out := Exit(server, c);
      if out !in net || !EntityLabel(net[out].connection) then Lost(out)
      else
        match Travel(net, net[out].server, Crossed(c, net[out]))
        case Arrived(s, d, ports) => Arrived(s, d, [out] + ports)
        case Lost(p) => Lost(p)
  }

  /** Where a command with an address leaves a server. */
  function Exit(server: nat, c: Command): Port {
    Port(server, c.target.entity, Before(Forwarded(c).target.address, ADDRESS_SCOPE))
  }

  /** What comes out at `next` of a command that was sent over its link. */
  function Crossed(c: Command, next: Port): (d: Command)
    ensures c.target.address != "" ==> |d.target.address| < |c.target.address|
  {
    Received(Forwarded(c), next.forwarder, next.connection)
  }

  function HopOf(p: Port): Hop {
    Hop(p.forwarder, p.connection)
  }

  function HopsOfPorts(ports: seq<Port>): (hops: seq<Hop>)
    ensures |hops| == |ports|
    ensures forall i :: 0 <= i < |hops| ==> hops[i] == HopOf(ports[i])
  {
    seq(|ports|, i requires 0 <= i < |ports| => HopOf(ports[i]))
  }

  /** The ports are one after the other on a walk from `server`. */
  predicate Path(net: Network, server: nat, ports: seq<Port>)
    decreases |ports|
  {
    ports == [] || (ports[0] in net && ports[0].server == server && Path(net, net[ports[0]].server, ports[1..]))
  }

  function End(net: Network, server: nat, ports: seq<Port>): nat
    requires Path(net, server, ports)
    decreases |ports|
  {
    if ports == [] then server else End(net, net[ports[0]].server, ports[1..])
  }

  /** The same links from the far side, in the order of the walk back. */
  function WayBack(net: Network, server: nat, ports: seq<Port>): (back: seq<Port>)
    requires Path(net, server, ports)
    ensures |back| == |ports|
    decreases |ports|
  {
    if ports == [] then [] else WayBack(net, net[ports[0]].server, ports[1..]) + [net[ports[0]]]
  }

  lemma {:induction false} WayBackAt(net: Network, server: nat, ports: seq<Port>, i: nat)
    requires Path(net, server, ports) && i < |ports|
    ensures ports[i] in net && WayBack(net, server, ports)[|ports| - 1 - i] == net[ports[i]]
    decreases |ports|
  {
    if i > 0 {
      WayBackAt(net, net[ports[0]].server, ports[1..], i - 1);
    }
  }

  // ---------------------------------------------------------------- one way

  /** A journey that arrives is a walk over the links it reports. */
  lemma {:induction false} TravelIsPath(net: Network, server: nat, c: Command)
    requires Travel(net, server, c).Arrived?
    ensures var out := Travel(net, server, c);
            Path(net, server, out.ports) && End(net, server, out.ports) == out.server
    decreases |c.target.address|
  {
    if c.target.address != "" {
      var next := net[Exit(server, c)];
      TravelIsPath(net, next.server, Crossed(c, next));
      assert Travel(net, server, c).ports[1..] == Travel(net, next.server, Crossed(c, next)).ports;
    }
  }

  lemma HopsStep(rest: seq<Port>, next: Port, back: seq<Hop>)
    ensures HopsOfPorts(rest + [next]) + back == HopsOfPorts(rest) + ([HopOf(next)] + back)
  {
  }

  /** However a command was addressed, its origin becomes the route back to its sender. */
  lemma {:induction false} OriginAccumulates(net: Network, server: nat, c: Command, back: seq<Hop>, sender: string)
    requires Travel(net, server, c).Arrived?
    requires c.orig == Route(back, sender)
    ensures var out := Travel(net, server, c);
            && Path(net, server, out.ports)
            && out.command.orig == Route(HopsOfPorts(WayBack(net, server, out.ports)) + back, sender)
    decreases |c.target.address|
  {
    TravelIsPath(net, server, c);
    var ports := Travel(net, server, c).ports;
    if c.target.address == "" {
      assert HopsOfPorts([]) + back == back;
    } else {
      var next := net[ports[0]];
      var d := Crossed(c, next);
      var tail := Travel(net, next.server, d);
      assert ports[1..] == tail.ports && Travel(net, server, c).command == tail.command;
      var back' := [HopOf(next)] + back;
      RouteStep(HopOf(next), back, sender);
      OriginAccumulates(net, next.server, d, back', sender);
      HopsStep(WayBack(net, next.server, ports[1..]), next, back);
    }
  }

  lemma PathClean(net: Network, server: nat, ports: seq<Port>)
    requires WellNamed(net) && Path(net, server, ports)
    ensures CleanHops(HopsOfPorts(ports))
    decreases ports
  {
    if ports != [] {
      PathClean(net, net[ports[0]].server, ports[1..]);
      EntityLabelIsClean(ports[0].forwarder);
      EntityLabelIsClean(ports[0].connection);
      assert HopsOfPorts(ports) == [HopOf(ports[0])] + HopsOfPorts(ports[1..]);
    }
  }

  /** The command takes exactly these links, and is addressed like this at the end of them. */
  predicate Follows(net: Network, server: nat, ports: seq<Port>, c: Command, target: Target)
    requires Path(net, server, ports)
  {
    var out := Travel(net, server, c);
    out.Arrived? && out.ports == ports && out.server == End(net, server, ports) && out.command.target == target
  }

  lemma FollowsLink(net: Network, server: nat, ports: seq<Port>, c: Command, target: Target)
    requires WellNamed(net) && Path(net, server, ports) && ports != []
    requires c.target.address != "" && Exit(server, c) == ports[0]
    ensures var next := net[ports[0]];
            Follows(net, server, ports, c, target) <==> Follows(net, next.server, ports[1..], Crossed(c, next), target)
  {
    var tail := Travel(net, net[ports[0]].server, Crossed(c, net[ports[0]]));
    assert ports == [ports[0]] + ports[1..];
    assert tail.Arrived? ==> ([ports[0]] + tail.ports)[1..] == tail.ports;
  }

  /** A route is used up hop by hop, in order, and the command ends at the final entity with no address left. */
  lemma {:induction false} RouteConsumed(net: Network, server: nat, ports: seq<Port>, c: Command, entity: string)
    requires WellNamed(net) && Path(net, server, ports) && Clean(entity)
    requires c.target == Route(HopsOfPorts(ports), entity)
    ensures Follows(net, server, ports, c, Target(entity, ""))
    decreases |ports|
  {
    if ports != [] {
      RouteStepTaken(net, server, ports, c, entity);
      var next := net[ports[0]];
      RouteConsumed(net, next.server, ports[1..], Crossed(c, next), entity);
      FollowsLink(net, server, ports, c, Target(entity, ""));
    }
  }

  lemma RouteStepTaken(net: Network, server: nat, ports: seq<Port>, c: Command, entity: string)
    requires WellNamed(net) && Path(net, server, ports) && Clean(entity) && ports != []
    requires c.target == Route(HopsOfPorts(ports), entity)
    ensures c.target.address != "" && Exit(server, c) == ports[0]
    ensures Crossed(c, net[ports[0]]).target == Route(HopsOfPorts(ports[1..]), entity)
  {
    var hops := HopsOfPorts(ports);
    RouteEmpty(hops, entity);
    PathClean(net, server, ports);
    RoutePeels(hops, entity);
    assert hops[1..] == HopsOfPorts(ports[1..]);
  }

  lemma {:induction false} ServerRouteArrives(net: Network, server: nat, ports: seq<Port>, c: Command)
    requires WellNamed(net) && Path(net, server, ports)
    requires ports == [] || ports[|ports| - 1].connection != ""
    requires c.target == ServerRoute(HopsOfPorts(ports))
    ensures Follows(net, server, ports, c, Target("", ""))
    decreases |ports|
  {
    if ports != [] {
      ServerStepTaken(net, server, ports, c);
      var next := net[ports[0]];
      ServerRouteArrives(net, next.server, ports[1..], Crossed(c, next));
      FollowsLink(net, server, ports, c, Target("", ""));
    }
  }

  lemma PathFront(net: Network, server: nat, front: seq<Port>, last: Port)
    requires Path(net, server, front + [last])
    ensures Path(net, server, front)
    ensures front != [] ==> front[0] in net && Path(net, net[front[0]].server, front[1..] + [last])
    decreases |front|
  {
    if front != [] {
      assert (front + [last])[1..] == front[1..] + [last];
      PathFront(net, net[front[0]].server, front[1..], last);
    }
  }

  lemma {:induction false} ServerRouteStops(net: Network, server: nat, front: seq<Port>, last: Port, c: Command)
    requires WellNamed(net) && Path(net, server, front + [last]) && Path(net, server, front) && last.connection == ""
    requires c.target == ServerRoute(HopsOfPorts(front + [last]))
    ensures Follows(net, server, front, c, Target(last.forwarder, ""))
    decreases |front|
  {
    if front == [] {
      assert front + [last] == [last];
      StopsAtOnce(net, server, last, c);
    } else {
      var ports := front + [last];
      assert ports[0] == front[0] && ports[1..] == front[1..] + [last];
      ServerStepTaken(net, server, ports, c);
      var next := net[front[0]];
      ServerRouteStops(net, next.server, front[1..], last, Crossed(c, next));
      FollowsLink(net, server, front, c, Target(last.forwarder, ""));
    }
  }

  lemma StopsAtOnce(net: Network, server: nat, last: Port, c: Command)
    requires last.connection == "" && c.target == ServerRoute(HopsOfPorts([last]))
    ensures Follows(net, server, [], c, Target(last.forwarder, ""))
  {
    assert HopsOfPorts([last]) == [HopOf(last)];
  }

  /**
   A command for the server behind a client follows the same links and is for that server when it arrives, exactly
   if the last connection has a name. Otherwise it stops before the last link, addressed to the forwarder there.
   */
  lemma ServerRouteConsumed(net: Network, server: nat, ports: seq<Port>, c: Command)
    requires WellNamed(net) && Path(net, server, ports)
    requires c.target == ServerRoute(HopsOfPorts(ports))
    ensures Follows(net, server, ports, c, Target("", ""))
            <==> ports == [] || ports[|ports| - 1].connection != ""
    ensures ports != [] && ports[|ports| - 1].connection == "" ==>
              && Path(net, server, ports[..|ports| - 1])
              && Follows(net, server, ports[..|ports| - 1], c, Target(ports[|ports| - 1].forwarder, ""))
  {
    if ports == [] || ports[|ports| - 1].connection != "" {
      ServerRouteArrives(net, server, ports, c);
    } else {
      var front, last := ports[..|ports| - 1], ports[|ports| - 1];
      assert ports == front + [last];
      PathFront(net, server, front, last);
      ServerRouteStops(net, server, front, last, c);
    }
  }

  lemma ServerStepTaken(net: Network, server: nat, ports: seq<Port>, c: Command)
    requires WellNamed(net) && Path(net, server, ports) && ports != []
    requires |ports| > 1 || ports[0].connection != ""
    requires c.target == ServerRoute(HopsOfPorts(ports))
    ensures c.target.address != "" && Exit(server, c) == ports[0]
    ensures Crossed(c, net[ports[0]]).target == ServerRoute(HopsOfPorts(ports[1..]))
  {
    var hops := HopsOfPorts(ports);
    PathClean(net, server, ports);
    ServerRoutePeels(hops);
    assert hops[1..] == HopsOfPorts(ports[1..]);
    assert |hops| > 1 ==> CLIENT_SCOPE in Scoped(hops[1].forwarder, hops[0].connection);
  }

  // ---------------------------------------------------------------- and back

  lemma {:induction false} PathConcat(net: Network, server: nat, ports: seq<Port>, p: Port)
    requires Path(net, server, ports) && p in net && p.server == End(net, server, ports)
    ensures Path(net, server, ports + [p]) && End(net, server, ports + [p]) == net[p].server
    decreases |ports|
  {
    if ports == [] {
      assert [p][1..] == [];
      assert ports + [p] == [p];
    } else {
      assert (ports + [p])[1..] == ports[1..] + [p];
      PathConcat(net, net[ports[0]].server, ports[1..], p);
    }
  }

  lemma {:induction false} WayBackIsPath(net: Network, server: nat, ports: seq<Port>)
    requires TwoWay(net) && Path(net, server, ports)
    ensures var back := WayBack(net, server, ports);
            var end := End(net, server, ports);
            Path(net, end, back) && End(net, end, back) == server
    decreases |ports|
  {
    if ports != [] {
      var next := net[ports[0]];
      WayBackIsPath(net, next.server, ports[1..]);
      PathConcat(net, End(net, server, ports), WayBack(net, next.server, ports[1..]), next);
    }
  }

  lemma WayBackTwice(net: Network, server: nat, ports: seq<Port>)
    requires TwoWay(net) && Path(net, server, ports)
    ensures var back := WayBack(net, server, ports);
            && Path(net, End(net, server, ports), back)
            && WayBack(net, End(net, server, ports), back) == ports
  {
    WayBackIsPath(net, server, ports);
    var back := WayBack(net, server, ports);
    var again := WayBack(net, End(net, server, ports), back);
    forall i | 0 <= i < |ports|
      ensures again[i] == ports[i]
    {
      WayBackAt(net, server, ports, i);
      WayBackAt(net, End(net, server, ports), back, |ports| - 1 - i);
    }
  }

  /**
   The reply to a command that arrived goes back over the same links in reverse order, whatever route the
   command was given. It ends on the sender's server, addressed to the sender by name and to nothing further,
   and carries the route of the first command as its own origin.
   */
  lemma ReplyRetracesRoute(net: Network, server: nat, c: Command, sender: string)
    requires TwoWay(net) && WellNamed(net) && Clean(sender)
    requires c.orig == Target(sender, "")
    requires Travel(net, server, c).Arrived?
    ensures var out := Travel(net, server, c);
            var back := Travel(net, out.server, Response(out.command));
            && Path(net, server, out.ports)
            && back.Arrived?
            && back.server == server
            && back.command.target == Target(sender, "")
            && back.ports == WayBack(net, server, out.ports)
            && back.command.orig == Route(HopsOfPorts(out.ports), out.command.target.entity)
  {
    var out := Travel(net, server, c);
    var reply := Response(out.command);
    TravelIsPath(net, server, c);
    OriginAccumulates(net, server, c, [], sender);
    var way := WayBack(net, server, out.ports);
    assert HopsOfPorts(way) + [] == HopsOfPorts(way);
    WayBackIsPath(net, server, out.ports);
    RouteConsumed(net, out.server, way, reply, sender);
    OriginAccumulates(net, out.server, reply, [], out.command.target.entity);
    WayBackTwice(net, server, out.ports);
    assert HopsOfPorts(out.ports) + [] == HopsOfPorts(out.ports);
  }

  /**
   From a user's scope text to the reply: a command to `entity` given the text of a walkable route arrives over
   exactly the listed hops, and its reply comes back over them.
   */
  lemma RoundTrip(net: Network, server: nat, ports: seq<Port>, sender: string, entity: string)
    requires TwoWay(net) && WellNamed(net) && Path(net, server, ports) && ports != []
    requires Clean(sender) && Clean(entity)
    ensures var scope := ScopeText(HopsOfPorts(ports));
            var c := Command(Target(sender, ""), Inserted(Target(entity, ""), Split(scope, ADDRESS_SCOPE)));
            var out := Travel(net, server, c);
            && out.Arrived? && out.ports == ports && out.command.target == Target(entity, "")
            && var back := Travel(net, out.server, Response(out.command));
            && back.Arrived? && back.server == server && back.command.target == Target(sender, "")
            && back.ports == WayBack(net, server, ports)
  {
    var hops := HopsOfPorts(ports);
    PathClean(net, server, ports);
    InsertBuildsRoute(hops, [], entity);
    assert hops + [] == hops;
    var c := Command(Target(sender, ""), Route(hops, entity));
    RouteConsumed(net, server, ports, c, entity);
    ReplyRetracesRoute(net, server, c, sender);
  }
}
