/**
 The server's tables of clients, services and monitors, which change together
 (libs/server/api-server.cpp, client-list.cpp, service-list.cpp, monitor-list.cpp, name-check.cpp,
 execute-thread.cpp).
 */
module Registry {
  import opened Entities
  import opened Text
  import opened Conversion
  import opened LabelCheck
  import opened Permissions
  import opened Registration

  // Settings, of any value.
  const MAX_CLIENTS: nat
  const MAX_SERVICES: nat

  datatype Service = Service(owner: Handle, name: string, kind: string, location: string)

  /** `watcher` is told when `client` leaves or withdraws the service of that name. */
  datatype ExitMonitor = ExitMonitor(watcher: Handle, client: Handle, name: string)

  /** What a client was given when it was created, for good. */
  datatype Grant = Grant(permissions: Mask, newClients: Mask)

  // ---------------------------------------------------------------- lists

  function Filter<T(!new)>(s: seq<T>, keep: T -> bool): (r: seq<T>)
    ensures forall x :: x in r <==> x in s && keep(x)
    ensures |r| <= |s|
  {
    if s == [] then []
    else
      assert s == [s[0]] + s[1..];
      if keep(s[0]) then [s[0]] + Filter(s[1..], keep) else Filter(s[1..], keep)
  }

  lemma {:induction false} FilterAll<T(!new)>(s: seq<T>, keep: T -> bool)
    requires forall x :: x in s ==> keep(x)
    ensures Filter(s, keep) == s
  {
    if s != [] {
      FilterAll(s[1..], keep);
    }
  }

  lemma {:induction false} FilterDrops<T(!new)>(s: seq<T>, i: nat, keep: T -> bool)
    requires i < |s| && !keep(s[i])
    ensures Filter(s[..i] + s[i + 1..], keep) == Filter(s, keep)
  {
    var t := s[..i] + s[i + 1..];
    if i == 0 {
      assert t == s[1..];
    } else {
      assert t[1..] == s[1..][..i - 1] + s[1..][i..];
      FilterDrops(s[1..], i - 1, keep);
    }
  }

  function NotOwnedBy(h: Handle): Service -> bool {
    (s: Service) => s.owner != h
  }

  function NotNamed(h: Handle, name: string): Service -> bool {
    (s: Service) => !(s.owner == h && s.name == name)
  }

  function NotLocatedAt(h: Handle, location: string): Service -> bool {
    (s: Service) => !(s.owner == h && LocatedAt(s, location))
  }

  /** `find_by_location`: what is left of the service's location behind its first hop. */
  predicate LocatedAt(s: Service, location: string) {
    Remaining(Peeled(s.location).address) == location
  }

  /** A service is located where its address goes on behind the first hop, and nowhere if that is the only one. */
  lemma LocatedBehindFirstHop(s: Service, forwarder: string, connection: string, rest: string, location: string)
    requires CLIENT_SCOPE !in forwarder && ADDRESS_SCOPE !in connection
    ensures s.location == forwarder + [CLIENT_SCOPE] + (connection + [ADDRESS_SCOPE] + rest) ==>
              (LocatedAt(s, location) <==> location == rest)
    ensures s.location == forwarder + [CLIENT_SCOPE] + connection ==> (LocatedAt(s, location) <==> location == "")
  {
    FindFirst(forwarder, CLIENT_SCOPE, connection + [ADDRESS_SCOPE] + rest);
    FindFirst(forwarder, CLIENT_SCOPE, connection);
    FindFirst(connection, ADDRESS_SCOPE, rest);
  }

  function NotWatchedBy(h: Handle): ExitMonitor -> bool {
    (m: ExitMonitor) => m.watcher != h
  }

  // ---------------------------------------------------------------- names

  /** `check_names`: nobody has the name. */
  predicate CheckNames(clients: map<Handle, Client>, services: seq<Service>, name: string) {
    && (forall h :: h in clients ==> clients[h].name != name)
    && (forall s :: s in services ==> s.name != name)
  }

  /** Services with a name have it for themselves. */
  predicate Distinct(services: seq<Service>) {
    services != [] ==>
      && (services[0].name == "" || forall s :: s in services[1..] ==> s.name != services[0].name)
      && Distinct(services[1..])
  }

  lemma {:induction false} DistinctFilter(services: seq<Service>, keep: Service -> bool)
    requires Distinct(services)
    ensures Distinct(Filter(services, keep))
  {
    if services != [] {
      DistinctFilter(services[1..], keep);
      var rest := Filter(services[1..], keep);
      assert ([services[0]] + rest)[1..] == rest;
    }
  }

  lemma {:induction false} DistinctAppend(services: seq<Service>, s: Service)
    requires Distinct(services)
    requires s.name == "" || forall t :: t in services ==> t.name != s.name
    ensures Distinct(services + [s])
  {
    if services == [] {
      assert services + [s] == [s];
    } else {
      assert (services + [s])[1..] == services[1..] + [s];
      assert forall t :: t in services[1..] ==> t in services;
      DistinctAppend(services[1..], s);
    }
  }

  lemma {:induction false} DistinctNames(services: seq<Service>, i: nat, j: nat)
    requires Distinct(services) && i < j < |services| && services[i].name != ""
    ensures services[i].name != services[j].name
  {
    if i > 0 {
      DistinctNames(services[1..], i - 1, j - 1);
    } else {
      assert services[1..][j - 1] in services[1..];
    }
  }

  function FirstNamed(services: seq<Service>, name: string): (s: Option<Service>)
    ensures s.Some? ==> s.value in services && s.value.name == name
    ensures s.None? ==> forall t :: t in services ==> t.name != name
  {
    if services == [] then None
    else
      assert services == [services[0]] + services[1..];
      if services[0].name == name then Some(services[0]) else FirstNamed(services[1..], name)
  }

  // ---------------------------------------------------------------- what always holds

  ghost predicate NamesOk(clients: map<Handle, Client>, services: seq<Service>) {
    && Distinct(services)
    && (forall h, k :: h in clients && k in clients && h != k && clients[h].name != "" ==> clients[h].name != clients[k].name)
    && (forall h, s :: h in clients && s in services && clients[h].name != "" ==> clients[h].name != s.name)
  }

  ghost predicate OwnersOk(clients: map<Handle, Client>, services: seq<Service>) {
    forall s :: s in services ==> s.owner in clients && CheckAll(clients[s.owner].clientType, {ResourceClient})
  }

  ghost predicate MonitorsOk(clients: map<Handle, Client>, monitors: map<Handle, nat>, exits: seq<ExitMonitor>) {
    && monitors.Keys <= clients.Keys
    && (forall m :: m in exits ==> m.watcher in clients)
  }

  ghost predicate TypesOk(clients: map<Handle, Client>) {
    forall h :: h in clients ==> Within(clients[h].clientType, clients[h].maxPermissions)
  }

  /** Notices sent about a client, and the one its record may still cause, are one at most. */
  ghost predicate NoticesOk(clients: map<Handle, Client>, notices: map<Handle, nat>) {
    && clients.Keys <= notices.Keys
    && (forall h :: h in notices ==> notices[h] <= 1)
    && (forall h :: h in clients ==> notices[h] + Tokens(clients[h]) <= 1)
  }

  /** Clients hand on no more than they were given to hand on. */
  ghost predicate LineageOk(clients: map<Handle, Client>, grants: map<Handle, Grant>, parents: map<Handle, Handle>) {
    && clients.Keys <= grants.Keys
    && (forall h :: h in clients ==>
          grants[h] == Grant(clients[h].maxPermissions, clients[h].maxNewClient))
    && (forall h :: h in grants ==> Within(grants[h].newClients, MASK_ADMIN))
    && (forall h :: h in parents ==>
          && h in grants && parents[h] in grants && parents[h] < h
          && Within(grants[h].permissions, grants[parents[h]].newClients)
          && Within(grants[h].newClients, grants[parents[h]].newClients))
  }

  lemma AddKeepsTables(clients: map<Handle, Client>, services: seq<Service>, monitors: map<Handle, nat>,
                       exits: seq<ExitMonitor>, h: Handle, c: Client)
    requires NamesOk(clients, services) && OwnersOk(clients, services) && MonitorsOk(clients, monitors, exits)
    requires TypesOk(clients)
    requires h !in clients && c.name == "" && c.clientType == NONE
    ensures NamesOk(clients[h := c], services)
    ensures OwnersOk(clients[h := c], services)
    ensures MonitorsOk(clients[h := c], monitors, exits)
    ensures TypesOk(clients[h := c])
  {
    assert Within(NONE, c.maxPermissions);
  }

  lemma AddKeepsLineage(clients: map<Handle, Client>, grants: map<Handle, Grant>, parents: map<Handle, Handle>,
                        h: Handle, c: Client, asker: Option<Handle>)
    requires LineageOk(clients, grants, parents) && (forall k :: k in grants ==> k < h)
    requires Within(c.maxNewClient, MASK_ADMIN)
    requires asker.Some? ==> asker.value in clients
                             && Within(c.maxPermissions, clients[asker.value].maxNewClient)
                             && Within(c.maxNewClient, clients[asker.value].maxNewClient)
    ensures LineageOk(clients[h := c], grants[h := Grant(c.maxPermissions, c.maxNewClient)],
                      if asker.Some? then parents[h := asker.value] else parents)
  {
    var grants' := grants[h := Grant(c.maxPermissions, c.maxNewClient)];
    var parents' := if asker.Some? then parents[h := asker.value] else parents;
    forall k | k in parents'
      ensures k in grants' && parents'[k] in grants' && parents'[k] < k
      ensures Within(grants'[k].permissions, grants'[parents'[k]].newClients)
      ensures Within(grants'[k].newClients, grants'[parents'[k]].newClients)
    {
      if k in parents && k != h {
        assert grants[k] == grants'[k] && grants[parents[k]] == grants'[parents[k]];
      }
    }
  }

  lemma AddKeepsNotices(clients: map<Handle, Client>, notices: map<Handle, nat>, h: Handle, c: Client)
    requires NoticesOk(clients, notices) && h !in clients
    ensures NoticesOk(clients[h := c], notices[h := 0])
  {
  }

  /** Nothing but the record of one client changes, and not the masks it was created with. */
  lemma ChangeKeepsTables(clients: map<Handle, Client>, services: seq<Service>, monitors: map<Handle, nat>,
                          exits: seq<ExitMonitor>, h: Handle, c: Client)
    requires NamesOk(clients, services) && OwnersOk(clients, services) && MonitorsOk(clients, monitors, exits)
    requires TypesOk(clients) && h in clients
    requires c.name == clients[h].name || c.name == "" || CheckNames(clients, services, c.name)
    requires c.clientType == clients[h].clientType || forall s :: s in services ==> s.owner != h
    requires Within(c.clientType, c.maxPermissions)
    ensures NamesOk(clients[h := c], services)
    ensures OwnersOk(clients[h := c], services)
    ensures MonitorsOk(clients[h := c], monitors, exits)
    ensures TypesOk(clients[h := c])
  {
  }

  lemma ChangeKeepsLineage(clients: map<Handle, Client>, grants: map<Handle, Grant>, parents: map<Handle, Handle>,
                           h: Handle, c: Client)
    requires LineageOk(clients, grants, parents) && h in clients
    requires c.maxPermissions == clients[h].maxPermissions && c.maxNewClient == clients[h].maxNewClient
    ensures LineageOk(clients[h := c], grants, parents)
  {
  }

  function Noticed(notices: map<Handle, nat>, h: Handle, sent: bool): map<Handle, nat>
    requires h in notices
  {
    if sent then notices[h := notices[h] + 1] else notices
  }

  lemma ChangeKeepsNotices(clients: map<Handle, Client>, notices: map<Handle, nat>, h: Handle, c: Client, sent: bool)
    requires NoticesOk(clients, notices) && h in clients
    requires Tokens(c) + (if sent then 1 else 0) <= Tokens(clients[h])
    ensures NoticesOk(clients[h := c], Noticed(notices, h, sent))
  {
  }

  lemma FewerServices(clients: map<Handle, Client>, services: seq<Service>, keep: Service -> bool)
    requires NamesOk(clients, services) && OwnersOk(clients, services)
    ensures NamesOk(clients, Filter(services, keep)) && OwnersOk(clients, Filter(services, keep))
  {
    DistinctFilter(services, keep);
  }

  lemma RemoveKeepsTables(clients: map<Handle, Client>, services: seq<Service>, monitors: map<Handle, nat>,
                          exits: seq<ExitMonitor>, h: Handle)
    requires NamesOk(clients, services) && OwnersOk(clients, services) && MonitorsOk(clients, monitors, exits)
    requires TypesOk(clients)
    ensures NamesOk(clients - {h}, Filter(services, NotOwnedBy(h)))
    ensures OwnersOk(clients - {h}, Filter(services, NotOwnedBy(h)))
    ensures MonitorsOk(clients - {h}, monitors - {h}, Filter(exits, NotWatchedBy(h)))
    ensures TypesOk(clients - {h})
  {
    DistinctFilter(services, NotOwnedBy(h));
  }

  lemma RemoveKeepsRecords(clients: map<Handle, Client>, notices: map<Handle, nat>, grants: map<Handle, Grant>,
                           parents: map<Handle, Handle>, h: Handle)
    requires NoticesOk(clients, notices) && LineageOk(clients, grants, parents)
    ensures NoticesOk(clients - {h}, notices) && LineageOk(clients - {h}, grants, parents)
  {
  }

  /** Takes the monitors of clients that are gone off the list, in place. */
  method RemoveDetached(all: seq<ExitMonitor>, clients: map<Handle, Client>) returns (told: seq<ExitMonitor>)
    ensures told == Filter(all, Attached(clients))
  {
    told := all;
    var i := 0;
    while i < |told|
      invariant 0 <= i <= |told|
      invariant Filter(told, Attached(clients)) == Filter(all, Attached(clients))
      invariant forall k :: 0 <= k < i ==> told[k].watcher in clients
    {
      if told[i].watcher !in clients {
        FilterDrops(told, i, Attached(clients));
        told := told[..i] + told[i + 1..];
      } else {
        i := i + 1;
      }
    }
    FilterAll(told, Attached(clients));
  }

  class Server {
    const maxPermissions: Mask
    const maxNewClient: Mask
    var clients: map<Handle, Client>
    var services: seq<Service>
    var monitors: map<Handle, nat>
    var exits: seq<ExitMonitor>
    var nextHandle: Handle

    ghost var notices: map<Handle, nat>     // notices sent about each client ever created
    ghost var grants: map<Handle, Grant>    // masks of each client ever created
    ghost var parents: map<Handle, Handle>  // who asked for each client that was asked for

    ghost predicate Valid()
      reads this
    {
      && NamesOk(clients, services)
      && OwnersOk(clients, services)
      && MonitorsOk(clients, monitors, exits)
      && TypesOk(clients)
      && NoticesOk(clients, notices)
      && LineageOk(clients, grants, parents)
      && notices.Keys == grants.Keys
      && (forall h :: h in grants ==> h < nextHandle)
    }

    constructor (maxPermissions: Mask, maxNewClient: Mask)
      ensures Valid() && clients == map[] && services == [] && monitors == map[] && exits == []
      ensures this.maxPermissions == maxPermissions && this.maxNewClient == maxNewClient
    {
      this.maxPermissions, this.maxNewClient := maxPermissions, maxNewClient;
      clients, services, monitors, exits, nextHandle := map[], [], map[], [], 0;
      notices, grants, parents := map[], map[], map[];
    }

    lemma Recorded(h: Handle)
      requires Valid() && h in clients
      ensures h in notices && Within(clients[h].clientType, clients[h].maxPermissions)
    {
    }

    // -------------------------------------------------------------- creation

    /** The record may be entered under a handle that was never used. */
    lemma Enter(h: Handle, c: Client, asker: Option<Handle>)
      requires Valid() && h == nextHandle && c.name == "" && c.clientType == NONE && Within(c.maxNewClient, MASK_ADMIN)
      requires asker.Some? ==> asker.value in clients
                               && Within(c.maxPermissions, clients[asker.value].maxNewClient)
                               && Within(c.maxNewClient, clients[asker.value].maxNewClient)
      ensures h !in grants && h !in clients
      ensures NamesOk(clients[h := c], services) && OwnersOk(clients[h := c], services)
      ensures MonitorsOk(clients[h := c], monitors, exits) && TypesOk(clients[h := c])
      ensures NoticesOk(clients[h := c], notices[h := 0])
      ensures LineageOk(clients[h := c], grants[h := Grant(c.maxPermissions, c.maxNewClient)],
                        if asker.Some? then parents[h := asker.value] else parents)
    {
      AddKeepsTables(clients, services, monitors, exits, h, c);
      AddKeepsLineage(clients, grants, parents, h, c, asker);
      AddKeepsNotices(clients, notices, h, c);
    }

    /** A new record, entered for `asker` if a client asked for it. */
    method AddElement(c: Client, ghost asker: Option<Handle>) returns (h: Handle)
      requires Valid()
      requires c.name == "" && c.clientType == NONE
      requires Within(c.maxNewClient, MASK_ADMIN)
      requires asker.Some? ==> asker.value in clients
                               && Within(c.maxPermissions, clients[asker.value].maxNewClient)
                               && Within(c.maxNewClient, clients[asker.value].maxNewClient)
      modifies this
      ensures Valid() && h !in old(grants)
      ensures clients == old(clients)[h := c]
      ensures services == old(services) && monitors == old(monitors) && exits == old(exits)
      ensures notices == old(notices)[h := 0]
      ensures grants == old(grants)[h := Grant(c.maxPermissions, c.maxNewClient)]
      ensures parents == if asker.Some? then old(parents)[h := asker.value] else old(parents)
    {
      hide NamesOk, OwnersOk, MonitorsOk, TypesOk, NoticesOk, LineageOk;
      h := nextHandle;
      Enter(h, c, asker);
      nextHandle := nextHandle + 1;
      clients := clients[h := c];
      notices := notices[h := 0];
      grants := grants[h := Grant(c.maxPermissions, c.maxNewClient)];
      parents := if asker.Some? then parents[h := asker.value] else parents;
    }

    /**
     `start_new_client`, as far as the record goes. It starts nothing if the users' groups do not match, or the
     process or the thread for it cannot be started; then no record stays.
     */
    method StartNewClient(permissions: Mask, newClients: Mask, critical: bool, reference: nat, notify: Option<Handle>,
                          starts: bool, ghost asker: Option<Handle>)
      returns (h: Option<Handle>)
      requires Valid() && asker == notify
      requires asker.Some? ==> asker.value in clients && Within(permissions, clients[asker.value].maxNewClient)
      modifies this
      ensures Valid() && (h.Some? <==> starts)
      ensures services == old(services) && monitors == old(monitors) && exits == old(exits)
      ensures h.None? ==> clients == old(clients) && parents == old(parents) && grants == old(grants) && notices == old(notices)
      ensures h.Some? ==>
                && h.value !in old(grants)
                && clients == old(clients)[h.value := Client("", NONE, permissions - {DetachedClient},
                                                             permissions * newClients * MASK_ADMIN, true, false, critical,
                                                             notify, reference)]
                && parents == (if asker.Some? then old(parents)[h.value := asker.value] else old(parents))
                && grants == old(grants)[h.value := Grant(permissions - {DetachedClient}, permissions * newClients * MASK_ADMIN)]
    {
      if !starts {
        return None;
      }
      var c := Client("", NONE, permissions - {DetachedClient}, permissions * newClients * MASK_ADMIN,
                      true, false, critical, notify, reference);
      if asker.Some? {
        MaskedWithin(permissions, newClients, clients[asker.value].maxNewClient);
      }
      var k := AddElement(c, asker);
      h := Some(k);
    }

    /** The server starts a client of its own, and goes down if that fails for a critical one. */
    method CreateOwnClient(critical: bool, starts: bool) returns (h: Option<Handle>, goesDown: bool)
      requires Valid()
      modifies this
      ensures Valid() && (h.Some? <==> starts) && (goesDown <==> critical && !starts)
      ensures h.None? ==> clients == old(clients)
      ensures h.Some? ==>
                && h.value !in old(grants) && h.value !in parents
                && clients == old(clients)[h.value := Client("", NONE, maxPermissions - {DetachedClient},
                                                             maxPermissions * maxNewClient * MASK_ADMIN,
                                                             true, false, critical, None, 0)]
    {
      OwnMasks(maxPermissions, maxNewClient);
      h := StartNewClient(maxPermissions, maxPermissions * maxNewClient, critical, 0, None, starts, None);
      goesDown := critical && h.None?;
    }

    /** A client asks for a new one. */
    method CreateClient(asker: Handle, wanted: Mask, reference: nat, starts: bool) returns (h: Option<Handle>)
      requires Valid() && asker in clients
      modifies this
      ensures Valid()
      ensures h.Some? <==> CheckAll(old(clients)[asker].clientType, {AdminClient}) && |old(clients)| < MAX_CLIENTS && starts
      ensures h.None? ==> clients == old(clients) && parents == old(parents) && grants == old(grants)
      ensures h.Some? ==>
                && h.value !in old(grants) && clients.Keys == old(clients).Keys + {h.value}
                && clients == old(clients)[h.value := clients[h.value]]
                && parents == old(parents)[h.value := asker]
                && var r := old(clients)[asker];
                   var given := wanted * r.maxNewClient * maxPermissions * (r.maxPermissions + r.maxNewClient);
                   clients[h.value] == Client("", NONE, given - {DetachedClient}, given * maxNewClient * MASK_ADMIN,
                                              true, false, false, Some(asker), reference)
    {
      var r := clients[asker];
      if !CheckAll(r.clientType, {AdminClient}) || |clients| >= MAX_CLIENTS {
        return None;
      }
      var asked := wanted * r.maxNewClient;
      var permissions := asked * maxPermissions;
      var newClients := asked * maxPermissions * maxNewClient;
      permissions := permissions * (r.maxPermissions + r.maxNewClient);
      newClients := newClients * (r.maxPermissions + r.maxNewClient);
      CreationMasks(wanted, r.maxNewClient, maxPermissions, maxNewClient, r.maxPermissions);
      h := StartNewClient(permissions, newClients, false, reference, Some(asker), starts, Some(asker));
    }

    /** A client asks to attach a process that waits at a local socket; connecting may fail. */
    method ConnectDetachedClient(asker: Handle, wanted: Mask, reference: nat, connects: bool) returns (h: Option<Handle>)
      requires Valid() && asker in clients
      modifies this
      ensures Valid()
      ensures h.Some? <==> && CheckAll(old(clients)[asker].clientType, {AdminClient, ServerControl})
                           && CheckAll(old(clients)[asker].maxNewClient, {DetachedClient})
                           && CheckAll(maxPermissions, {DetachedClient})
                           && |old(clients)| < MAX_CLIENTS && connects
      ensures h.None? ==> clients == old(clients) && parents == old(parents) && grants == old(grants)
      ensures h.Some? ==>
                && h.value !in old(grants) && clients.Keys == old(clients).Keys + {h.value}
                && clients == old(clients)[h.value := clients[h.value]]
                && parents == old(parents)[h.value := asker]
                && var r := old(clients)[asker];
                   var given := wanted * r.maxNewClient * maxPermissions * MASK_DETACHED
                                * (r.maxPermissions + r.maxNewClient);
                   clients[h.value] == Client("", NONE, (given * MASK_DETACHED) + {DetachedClient}, NONE,
                                              true, true, false, Some(asker), reference)
    {
      var r := clients[asker];
      if !CheckAll(r.clientType, {AdminClient, ServerControl}) || !CheckAll(r.maxNewClient, {DetachedClient}) {
        return None;
      }
      var permissions := wanted * r.maxNewClient;
      if |clients| >= MAX_CLIENTS || !CheckAll(maxPermissions, {DetachedClient}) {
        return None;
      }
      permissions := permissions * maxPermissions * MASK_DETACHED;
      permissions := permissions * (r.maxPermissions + r.maxNewClient);
      if !connects {
        return None;
      }
      DetachedMasks(wanted, r.maxNewClient, maxPermissions, r.maxPermissions);
      var c := Client("", NONE, (permissions * MASK_DETACHED) + {DetachedClient}, NONE, true, true, false,
                      Some(asker), reference);
      var k := AddElement(c, Some(asker));
      h := Some(k);
    }

    // -------------------------------------------------------------- registration

    /** `notify_register_attempt`, which sends only to a client that is there to be told. */
    ghost method NotifyRegisterAttempt(h: Handle, heard: bool)
      requires h in notices
      modifies this`notices
      ensures notices == Noticed(old(notices), h, heard)
      ensures notices == old(notices)[h := if heard then old(notices)[h] + 1 else old(notices)[h]]
    {
      notices := Noticed(notices, h, heard);
    }

    /** The record holds a token, and the client it names is attached. */
    predicate Heard(h: Handle)
      requires h in clients
      reads this
    {
      HoldsToken(clients[h]) && clients[h].notify.value in clients
    }

    /** The checks of a request, in order: whether it is refused, and whether the refusal is reported. */
    method ScreenRequest(c: Client, name: string, wanted: Mask) returns (refused: bool, reported: bool, asked: Mask)
      ensures asked == Requested(c, wanted)
      ensures refused <==> !Allowed(c, wanted, name)
      ensures refused ==> (reported <==> asked != NONE)
    {
      asked := wanted;
      var permissionPass;
      if CheckAll(c.maxPermissions, {AnyClient}) && !CheckAll(c.maxPermissions, {MonitorClient})
         && !CheckAll({MonitorClient}, asked * ALL_CLIENTS) {
        asked := asked - {MonitorClient};
        permissionPass := CheckAll(c.maxPermissions, asked * ALL_CLIENTS);
      } else {
        permissionPass := CheckAll(c.maxPermissions, asked * ALL_CLIENTS);
      }
      if !permissionPass {
        assert asked == NONE ==> asked * ALL_CLIENTS - c.maxPermissions == {};
        return true, true, asked;
      }
      if asked != NONE {
        if |name| != 0 {
          if asked * DENY_NAME_MASK == DENY_NAME {
            return true, true, asked;
          }
        } else if CheckAny(asked, REQUIRE_NAME) {
          return true, true, asked;
        }
      } else if |name| != 0 {
        return true, false, asked;
      }
      if asked != NONE && c.clientType != NONE {
        return true, true, asked;
      }
      refused, reported := false, false;
    }

    /** The type that a request comes to once it is let through. */
    method GrantType(c: Client, wanted: Mask, asked: Mask) returns (granted: Mask)
      requires asked == Requested(c, wanted)
      ensures granted == Granted(c, wanted)
    {
      granted := asked;
      if CheckAll(granted, {AdminClient}) {
        if !CheckAll(c.maxPermissions, {ServerControl}) {
          granted := granted - {ServerControl};
        }
      }
      if c.detached && granted != NONE {
        granted := granted + {DetachedClient};
      }
      granted := granted * c.maxPermissions;
    }

    method SetRegisteredClientType(h: Handle, name: string, wanted: Mask, disable: bool) returns (ok: bool, granted: Mask)
      requires h in clients && h in notices
      modifies this`clients, this`notices
      ensures var a := Attempted(old(clients)[h], old(Heard(h)), wanted, name, disable);
              && ok == a.ok
              && clients == old(clients)[h := a.client]
              && notices == Noticed(old(notices), h, old(Heard(h)) && a.notice.Some?)
              && (ok ==> granted == a.client.clientType)
    {
      var c := clients[h];
      var heard := Heard(h);
      clients := clients[h := c.(notify := None, reference := 0)];
      var refused, reported, asked := ScreenRequest(c, name, wanted);
      if refused {
        if reported {
          NotifyRegisterAttempt(h, heard);
        }
        return false, asked;
      }
      granted := GrantType(c, wanted, asked);
      var d := Cleared(c).(clientType := granted, name := name);
      if granted != NONE && d.freshClient {
        d := d.(freshClient := d.freshClient && disable);
        if d.freshClient {
          d := d.(notify := if heard then c.notify else None, reference := c.reference);
        } else {
          NotifyRegisterAttempt(h, heard);
        }
      }
      clients := clients[h := d];
      ok := true;
    }

    /** A client registers under a type and a name, or gives up its registration. */
    method RegisterClient(h: Handle, name: string, wanted: Mask, disable: bool) returns (ok: bool, granted: Mask)
      requires Valid() && h in clients
      modifies this`clients, this`services, this`monitors, this`exits, this`notices
      ensures Valid()
      ensures Admitted(old(clients), old(services), name) ==>
                && AfterAttempt(old(clients), old(services), old(monitors), old(exits), h)
                && var a := Attempted(old(clients)[h], old(Heard(h)), wanted, name, disable);
                   && ok == a.ok && clients == old(clients)[h := a.client]
                   && notices == Noticed(old(notices), h, old(Heard(h)) && a.notice.Some?)
                   && (ok ==> granted == a.client.clientType)
                   // whoever waits to hear of the client, and is there, is told
                   && (notices[h] == old(notices)[h] + 1 <==>
                         a.notice.Some? && old(clients)[h].notify.Some? && old(clients)[h].reference != 0
                         && old(clients)[h].notify.value in old(clients))
      ensures !Admitted(old(clients), old(services), name) ==>
                && !ok && clients == old(clients) && services == old(services)
                && monitors == old(monitors) && exits == old(exits) && notices == old(notices)
      // whoever is admitted as a resource client may register services
      ensures ok && ResourceClient in wanted ==> CheckAll(clients[h].clientType, {ResourceClient})
    {
      granted := NONE;
      var isLabel := CheckEntityLabel(name);
      if !isLabel {
        return false, granted;
      }
      if |name| != 0 {
        if !CheckNames(clients, services, name) {
          return false, granted;
        }
      }
      DropOwn(h);
      assert Heard(h) == old(Heard(h));
      ghost var c, heard := clients[h], Heard(h);
      ok, granted := Reregister(h, name, wanted, disable);
      if ok && ResourceClient in wanted {
        ResourceClientIsGranted(c, heard, wanted, name, disable);
      }
    }

    /** The name may be used at all. */
    predicate Admitted(clients: map<Handle, Client>, services: seq<Service>, name: string) {
      EntityLabel(name) && (name == "" || CheckNames(clients, services, name))
    }

    /** Any attempt drops the client's monitoring, and its services if it had any to drop. */
    ghost predicate AfterAttempt(clients: map<Handle, Client>, services: seq<Service>, monitors: map<Handle, nat>,
                                 exits: seq<ExitMonitor>, h: Handle)
      requires h in clients
      reads this
    {
      && this.services == (if CheckAll(clients[h].clientType, {ResourceClient})
                           then Filter(services, NotOwnedBy(h)) else services)
      && this.monitors == monitors - {h}
      && this.exits == Filter(exits, NotWatchedBy(h))
    }

    method DropOwn(h: Handle)
      requires Valid() && h in clients
      modifies this`services, this`monitors, this`exits
      ensures Valid() && AfterAttempt(clients, old(services), old(monitors), old(exits), h)
      ensures forall s :: s in services <==> s in old(services) && s.owner != h
      ensures forall m :: m in exits <==> m in old(exits) && m.watcher != h
    {
      DeregisterMonitor(h);
      var dropped := DeregisterAllOwnServices(h);
    }

    method Reregister(h: Handle, name: string, wanted: Mask, disable: bool) returns (ok: bool, granted: Mask)
      requires Valid() && h in clients
      requires Admitted(clients, services, name) && forall s :: s in services ==> s.owner != h
      modifies this`clients, this`notices
      ensures Valid()
      ensures var a := Attempted(old(clients)[h], old(Heard(h)), wanted, name, disable);
              && ok == a.ok && clients == old(clients)[h := a.client]
              && notices == Noticed(old(notices), h, old(Heard(h)) && a.notice.Some?)
              && (ok ==> granted == a.client.clientType)
    {
      hide NamesOk, OwnersOk, MonitorsOk, TypesOk, NoticesOk, LineageOk;
      Recorded(h);
      ghost var a := Attempted(clients[h], Heard(h), wanted, name, disable);
      ChangeKeepsTables(clients, services, monitors, exits, h, a.client);
      ChangeKeepsLineage(clients, grants, parents, h, a.client);
      ChangeKeepsNotices(clients, notices, h, a.client, Heard(h) && a.notice.Some?);
      ok, granted := SetRegisteredClientType(h, name, wanted, disable);
    }

    /** `manual_update_readiness`: the client says that it is ready. */
    method IndicateReady(h: Handle)
      requires Valid() && h in clients
      modifies this`clients, this`notices
      ensures Valid()
      ensures clients == old(clients)[h := Cleared(old(clients)[h]).(freshClient := false)]
      ensures notices == Noticed(old(notices), h, old(Heard(h)))
      ensures notices[h] == old(notices)[h] + 1 <==>
                old(clients)[h].notify.Some? && old(clients)[h].reference != 0
                && old(clients)[h].notify.value in old(clients)
    {
      hide NamesOk, OwnersOk, MonitorsOk, TypesOk, NoticesOk, LineageOk;
      Recorded(h);
      ghost var d := Cleared(clients[h]).(freshClient := false);
      ChangeKeepsTables(clients, services, monitors, exits, h, d);
      ChangeKeepsLineage(clients, grants, parents, h, d);
      ChangeKeepsNotices(clients, notices, h, d, Heard(h));
      var c := clients[h];
      var heard := Heard(h);
      clients := clients[h := c.(notify := None, reference := 0, freshClient := false)];
      NotifyRegisterAttempt(h, heard);
    }

    // -------------------------------------------------------------- services

    method RegisterService(h: Handle, name: string, kind: string, location: string) returns (ok: bool)
      requires Valid() && h in clients
      modifies this`services
      ensures Valid()
      ensures ok <==> && CheckAll(clients[h].clientType, {ResourceClient})
                      && EntityLabel(name) && AddressLabel(location)
                      && |old(services)| < MAX_SERVICES && CheckNames(clients, old(services), name)
      ensures services == if ok then old(services) + [Service(h, name, kind, location)] else old(services)
    {
      if !CheckAll(clients[h].clientType, {ResourceClient}) {
        return false;
      }
      var isEntity := CheckEntityLabel(name);
      var isAddress := CheckAddressLabel(location);
      if !isEntity || !isAddress {
        return false;
      }
      if |services| >= MAX_SERVICES {
        return false;
      }
      if !CheckNames(clients, services, name) {
        return false;
      }
      DistinctAppend(services, Service(h, name, kind, location));
      services := services + [Service(h, name, kind, location)];
      ok := true;
    }

    method DeregisterOwnService(h: Handle, name: string) returns (ok: bool)
      requires Valid() && h in clients
      modifies this`services
      ensures Valid()
      ensures services == if CheckAll(clients[h].clientType, {ResourceClient})
                          then Filter(old(services), NotNamed(h, name)) else old(services)
      ensures forall s :: s in services <==>
                s in old(services) && !(CheckAll(clients[h].clientType, {ResourceClient}) && s.owner == h && s.name == name)
      ensures ok <==> |services| < |old(services)|
    {
      if !CheckAll(clients[h].clientType, {ResourceClient}) {
        return false;
      }
      FewerServices(clients, services, NotNamed(h, name));
      var beforeSize := |services|;
      services := Filter(services, NotNamed(h, name));
      ok := |services| < beforeSize;
    }

    method DeregisterAllOwnServices(h: Handle) returns (ok: bool)
      requires Valid() && h in clients
      modifies this`services
      ensures Valid()
      ensures ok == CheckAll(clients[h].clientType, {ResourceClient})
      ensures services == if ok then Filter(old(services), NotOwnedBy(h)) else old(services)
      ensures forall s :: s in services <==> s in old(services) && s.owner != h
    {
      if !CheckAll(clients[h].clientType, {ResourceClient}) {
        return false;
      }
      FewerServices(clients, services, NotOwnedBy(h));
      services := Filter(services, NotOwnedBy(h));
      ok := true;
    }

    method DeregisterRemoteServices(h: Handle, location: string) returns (ok: bool)
      requires Valid() && h in clients
      modifies this`services
      ensures Valid()
      ensures services == if CheckAll(clients[h].clientType, {ResourceClient})
                          then Filter(old(services), NotLocatedAt(h, location)) else old(services)
      ensures forall s :: s in services <==>
                s in old(services)
                && !(CheckAll(clients[h].clientType, {ResourceClient}) && s.owner == h && LocatedAt(s, location))
      ensures ok <==> |services| < |old(services)|
    {
      if !CheckAll(clients[h].clientType, {ResourceClient}) {
        return false;
      }
      FewerServices(clients, services, NotLocatedAt(h, location));
      var beforeSize := |services|;
      services := Filter(services, NotLocatedAt(h, location));
      ok := |services| < beforeSize;
    }

    // -------------------------------------------------------------- monitors

    method SetMonitorTypes(h: Handle, events: nat) returns (ok: bool)
      requires Valid() && h in clients
      modifies this`monitors
      ensures Valid()
      ensures ok == CheckAll(clients[h].clientType, {MonitorClient})
      ensures monitors == if !ok then old(monitors)
                          else if events == 0 then old(monitors) - {h}
                          else old(monitors)[h := events]
    {
      if !CheckAll(clients[h].clientType, {MonitorClient}) {
        return false;
      }
      if events == 0 {
        monitors := monitors - {h};
      } else {
        monitors := monitors[h := events];
      }
      ok := true;
    }

    /** `clear_client_monitoring`. */
    method DeregisterMonitor(h: Handle)
      requires Valid()
      modifies this`monitors, this`exits
      ensures Valid()
      ensures monitors == old(monitors) - {h} && exits == Filter(old(exits), NotWatchedBy(h))
      ensures forall m :: m in exits <==> m in old(exits) && m.watcher != h
    {
      monitors := monitors - {h};
      exits := Filter(exits, NotWatchedBy(h));
    }

    /** The client answers to the name, has services, and nobody watches it under that name. */
    ghost predicate Watchable(name: string, k: Handle, exits: seq<ExitMonitor>)
      reads this
    {
      && k in clients && Receives(name, k) && CheckAll(clients[k].clientType, {ResourceClient})
      && forall m :: m in exits ==> !(m.client == k && m.name == name)
    }

    lemma WatchableIsFound(name: string, found: Option<Handle>)
      requires Valid() && name != ""
      requires if found.Some? then Receives(name, found.value) else forall h :: !Receives(name, h)
      ensures forall k: Handle :: Watchable(name, k, exits) ==> found == Some(k)
    {
      forall k: Handle | Watchable(name, k, exits)
        ensures found == Some(k)
      {
        if found.Some? {
          OneReceiver(name, found.value, k);
        }
      }
    }

    /** The checks of a request to watch somebody: who it is, if anybody. */
    method FindWatchable(name: string) returns (found: Option<Handle>)
      requires Valid() && name != ""
      ensures found.Some? ==> Watchable(name, found.value, exits)
      ensures found.None? ==> forall k: Handle :: !Watchable(name, k, exits)
    {
      found := FindReceiver(name);
      WatchableIsFound(name, found);
      hide NamesOk, OwnersOk, MonitorsOk, TypesOk, NoticesOk, LineageOk;
      if found.None? {
        return None;
      }
      if !CheckAll(clients[found.value].clientType, {ResourceClient}) {
        return None;
      }
      if exists m :: m in exits && m.client == found.value && m.name == name {
        return None;
      }
    }

    /** Accepted exactly if there is somebody to watch under the name; there is one such client at most. */
    method MonitorDisconnect(h: Handle, name: string) returns (ok: bool)
      requires Valid() && h in clients
      modifies this`exits
      ensures Valid()
      ensures ok <==> && CheckAll(clients[h].clientType, {ResourceClient}) && name != "" && name != clients[h].name
                      && old(exists k: Handle :: Watchable(name, k, exits))
      ensures ok ==> exists k: Handle :: old(Watchable(name, k, exits)) && exits == old(exits) + [ExitMonitor(h, k, name)]
      ensures !ok ==> exits == old(exits)
    {
      if !CheckAll(clients[h].clientType, {ResourceClient}) {
        return false;
      }
      if |name| == 0 || clients[h].name == name {
        return false;
      }
      var found := FindWatchable(name);
      if found.None? {
        forall k: Handle
          ensures !old(Watchable(name, k, exits))
        {
          assert !Watchable(name, k, exits);
        }
        return false;
      }
      exits := exits + [ExitMonitor(h, found.value, name)];
      ok := true;
    }

    /** A client is gone or withdrew a service: who is told, and of what. An empty name stands for all of them. */
    method SendExitUpdate(client: Handle, name: string) returns (told: seq<ExitMonitor>)
      requires Valid()
      modifies this`exits
      ensures Valid()
      ensures told == Filter(old(exits), Concerns(client, name))
      ensures exits == Filter(old(exits), Spares(client, name))
      ensures forall m :: m in told ==> m.watcher in clients
      // everybody who watches the client under that name, or under any if none is given, is told and taken off
      ensures forall m :: m in told <==> m in old(exits) && m.client == client && (name == "" || m.name == name)
      ensures forall m :: m in exits <==> m in old(exits) && !(m.client == client && (name == "" || m.name == name))
    {
      ghost var before := exits;
      told := CurrentExits(client, name);
      FilterAll(Filter(before, Concerns(client, name)), Attached(clients));
    }

    /** `get_exit_current_clients`, which also takes the monitors off the list. */
    method CurrentExits(client: Handle, name: string) returns (told: seq<ExitMonitor>)
      modifies this`exits
      ensures told == Filter(Filter(old(exits), Concerns(client, name)), Attached(clients))
      ensures exits == Filter(old(exits), Spares(client, name))
    {
      told := Filter(exits, Concerns(client, name));
      exits := Filter(exits, Spares(client, name));
      told := RemoveDetached(told, clients);
    }

    // -------------------------------------------------------------- removal

    /** A client leaves: its record, services and monitoring go together. A critical client takes the server down. */
    method RemoveClient(h: Handle) returns (removed: bool)
      requires Valid() && h in clients
      modifies this`clients, this`services, this`monitors, this`exits, this`notices
      ensures Valid()
      ensures removed == !old(clients)[h].critical
      ensures removed ==> clients == old(clients) - {h}
      ensures !removed ==> clients == old(clients)[h := Cleared(old(clients)[h])]
      ensures services == Filter(old(services), NotOwnedBy(h))
      ensures monitors == old(monitors) - {h} && exits == Filter(old(exits), NotWatchedBy(h))
      ensures forall s :: s in services <==> s in old(services) && s.owner != h
      ensures forall m :: m in exits <==> m in old(exits) && m.watcher != h
      ensures notices == Noticed(old(notices), h, old(Heard(h)))
      ensures notices[h] == old(notices)[h] + 1 <==>
                old(clients)[h].notify.Some? && old(clients)[h].reference != 0
                && old(clients)[h].notify.value in old(clients)
    {
      hide NamesOk, OwnersOk, MonitorsOk, TypesOk, NoticesOk, LineageOk;
      var critical := clients[h].critical;
      Retire(h);
      if critical {
        return false;
      }
      RemoveSingle(h);
      removed := true;
    }

    method Retire(h: Handle)
      requires Valid() && h in clients
      modifies this`clients, this`services, this`monitors, this`exits, this`notices
      ensures Valid() && clients == old(clients)[h := Cleared(old(clients)[h])]
      ensures services == Filter(old(services), NotOwnedBy(h))
      ensures monitors == old(monitors) - {h} && exits == Filter(old(exits), NotWatchedBy(h))
      ensures notices == Noticed(old(notices), h, old(Heard(h)))
    {
      var heard := Heard(h);
      ClearRecord(h, heard);
      DropEverything(h);
    }

    method RemoveSingle(h: Handle)
      requires Valid() && h in clients && h !in monitors
      requires (forall s :: s in services ==> s.owner != h) && (forall m :: m in exits ==> m.watcher != h)
      modifies this`clients
      ensures Valid() && clients == old(clients) - {h}
    {
      hide NamesOk, OwnersOk, MonitorsOk, TypesOk, NoticesOk, LineageOk;
      RemoveKeepsTables(clients, services, monitors, exits, h);
      RemoveKeepsRecords(clients, notices, grants, parents, h);
      FilterAll(services, NotOwnedBy(h));
      FilterAll(exits, NotWatchedBy(h));
      assert monitors - {h} == monitors;
      clients := clients - {h};
    }

    method ClearRecord(h: Handle, heard: bool)
      requires Valid() && h in clients && heard == Heard(h)
      modifies this`clients, this`notices
      ensures Valid()
      ensures clients == old(clients)[h := Cleared(old(clients)[h])]
      ensures notices == Noticed(old(notices), h, heard)
    {
      hide NamesOk, OwnersOk, MonitorsOk, TypesOk, NoticesOk, LineageOk;
      Recorded(h);
      var c := clients[h];
      ChangeKeepsTables(clients, services, monitors, exits, h, Cleared(c));
      ChangeKeepsLineage(clients, grants, parents, h, Cleared(c));
      ChangeKeepsNotices(clients, notices, h, Cleared(c), heard);
      clients := clients[h := c.(notify := None, reference := 0)];
      NotifyRegisterAttempt(h, heard);
    }

    method DropEverything(h: Handle)
      requires Valid()
      modifies this`monitors, this`exits, this`services
      ensures Valid()
      ensures services == Filter(old(services), NotOwnedBy(h))
      ensures monitors == old(monitors) - {h} && exits == Filter(old(exits), NotWatchedBy(h))
    {
      DeregisterMonitor(h);
      FewerServices(clients, services, NotOwnedBy(h));
      services := Filter(services, NotOwnedBy(h));
    }

    // -------------------------------------------------------------- finding a receiver

    /** The handle answers to the name, as a client or through a service. */
    ghost predicate Receives(name: string, h: Handle)
      reads this
    {
      (h in clients && clients[h].name == name) || exists s :: s in services && s.name == name && s.owner == h
    }

    /**
     The lookup of a command's receiver: by client name, then by service. The owner of a service is always
     found in the client table.
     */
    method FindReceiver(name: string) returns (found: Option<Handle>)
      requires Valid()
      ensures found.Some? ==> found.value in clients && Receives(name, found.value)
      ensures found.None? ==> forall h :: !Receives(name, h)
    {
      if h: Handle :| h in clients && clients[h].name == name {
        return Some(h);
      }
      var service := FirstNamed(services, name);
      if service.None? {
        return None;
      }
      if service.value.owner !in clients {
        assert false;
        return None;
      }
      found := Some(service.value.owner);
    }

    /** A name has one receiver at most, and it is attached. */
    lemma OneReceiver(name: string, h: Handle, k: Handle)
      requires Valid() && name != "" && Receives(name, h) && Receives(name, k)
      ensures h == k && h in clients
    {
      if exists s :: s in services && s.name == name && s.owner == h {
        var s :| s in services && s.name == name && s.owner == h;
        if exists t :: t in services && t.name == name && t.owner == k {
          var t :| t in services && t.name == name && t.owner == k;
          SameName(services, s, t);
        }
      }
    }

    /** `a` is the creator of `h`, or the creator of one of its ancestors. */
    ghost predicate Ancestor(a: Handle, h: Handle)
      requires LineageOk(clients, grants, parents)
      reads this
      decreases h
    {
      h in parents && (parents[h] == a || Ancestor(a, parents[h]))
    }

    /** No client ever has, or can hand on, what any of its ancestors could not hand on. */
    lemma {:induction false} PermissionsAttenuate(a: Handle, h: Handle)
      requires Valid() && Ancestor(a, h)
      ensures a in grants && h in grants
      ensures Within(grants[h].permissions, grants[a].newClients)
      ensures Within(grants[h].newClients, grants[a].newClients)
      ensures h in clients ==> Within(clients[h].clientType, grants[a].newClients)
      decreases h
    {
      if parents[h] != a {
        PermissionsAttenuate(a, parents[h]);
      }
    }

    /** Only the server's own clients ever have control of the server. */
    lemma ControlIsNotCreated(h: Handle)
      requires Valid() && h in clients && h in parents
      ensures !CheckAll(clients[h].clientType, {ServerControl})
      ensures !CheckAll(clients[h].maxPermissions, {ServerControl})
    {
      var p := grants[parents[h]];
      assert Within(clients[h].maxPermissions, p.newClients);
      assert ServerControl !in p.newClients;
      assert ServerControl in {ServerControl} - clients[h].maxPermissions;
      assert ServerControl in {ServerControl} - clients[h].clientType;
    }

    /** Nobody is told twice how the registration of a client went. */
    lemma NotifiedAtMostOnce(h: Handle)
      requires Valid() && h in notices
      ensures notices[h] <= 1
      ensures h in clients && notices[h] == 1 ==> !HoldsToken(clients[h])
    {
    }
  }

  function Concerns(client: Handle, name: string): ExitMonitor -> bool {
    (m: ExitMonitor) => (m.name == name || name == "") && m.client == client
  }

  function Attached(clients: map<Handle, Client>): ExitMonitor -> bool {
    (m: ExitMonitor) => m.watcher in clients
  }

  function Spares(client: Handle, name: string): ExitMonitor -> bool {
    (m: ExitMonitor) => !((m.name == name || name == "") && m.client == client)
  }

  lemma {:induction false} SameName(services: seq<Service>, s: Service, t: Service)
    requires Distinct(services) && s in services && t in services && s.name == t.name != ""
    ensures s == t
  {
    var i :| 0 <= i < |services| && services[i] == s;
    var j :| 0 <= j < |services| && services[j] == t;
    if i < j {
      DistinctNames(services, i, j);
    } else if j < i {
      DistinctNames(services, j, i);
    }
  }

  lemma MaskedWithin(permissions: Mask, newClients: Mask, outer: Mask)
    requires Within(permissions, outer)
    ensures Within(permissions - {DetachedClient}, outer)
    ensures Within(permissions * newClients * MASK_ADMIN, outer)
  {
  }

  lemma OwnMasks(serverMax: Mask, serverNew: Mask)
    ensures serverMax * (serverMax * serverNew) * MASK_ADMIN == serverMax * serverNew * MASK_ADMIN
  {
  }

  /** What a created client gets is within what its creator may hand on. */
  lemma CreationMasks(wanted: Mask, may: Mask, serverMax: Mask, serverNew: Mask, own: Mask)
    ensures Within(wanted * may * serverMax * (own + may), may)
    ensures wanted * may * serverMax * (own + may) * (wanted * may * serverMax * serverNew * (own + may)) * MASK_ADMIN
         == wanted * may * serverMax * (own + may) * serverNew * MASK_ADMIN
  {
  }

  lemma DetachedMasks(wanted: Mask, may: Mask, serverMax: Mask, own: Mask)
    requires CheckAll(may, {DetachedClient})
    ensures var given := wanted * may * serverMax * MASK_DETACHED * (own + may);
            Within((given * MASK_DETACHED) + {DetachedClient}, may)
    ensures Within(NONE, may) && Within(NONE, MASK_ADMIN)
  {
  }
}
