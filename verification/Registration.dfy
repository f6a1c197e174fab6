/**
 What one registration attempt does to a client's record (`set_registered_client_type` and
 `manual_update_readiness`, libs/server/client-list.cpp).
 */
module Registration {
  import opened Entities
  import opened Text
  import opened Permissions

  /**
   A client's record. While its registration is awaited, `notify` and `reference` say which client gets told
   about it, and under which reference.
   */
  datatype Client = Client(
    name: string,
    clientType: Mask,
    maxPermissions: Mask,
    maxNewClient: Mask,
    freshClient: bool,
    detached: bool,
    critical: bool,
    notify: Option<Handle>,
    reference: nat)

  /** The record holds the one notification that may be sent about it. */
  predicate HoldsToken(c: Client) {
    c.notify.Some? && c.reference != 0
  }

  function Tokens(c: Client): nat {
    if HoldsToken(c) then 1 else 0
  }

  function Cleared(c: Client): Client {
    c.(notify := None, reference := 0)
  }

  /** The outcome; a notice says whether success or failure is reported to whoever asked for the client. */
  datatype Attempt = Attempt(client: Client, ok: bool, notice: Option<bool>)

  /** The type asked for, without monitoring when the client may not monitor and asks for more than that. */
  function Requested(c: Client, wanted: Mask): Mask {
    if CheckAll(c.maxPermissions, {AnyClient}) && !CheckAll(c.maxPermissions, {MonitorClient})
       && !CheckAll({MonitorClient}, wanted * ALL_CLIENTS)
    then wanted - {MonitorClient}
    else wanted
  }

  /** Who may have a name, and who must. */
  predicate NameAllowed(wanted: Mask, name: string) {
    if wanted == NONE then name == ""
    else if name != "" then wanted * DENY_NAME_MASK != DENY_NAME
    else !CheckAny(wanted, REQUIRE_NAME)
  }

  predicate Allowed(c: Client, wanted: Mask, name: string) {
    var t := Requested(c, wanted);
    && CheckAll(c.maxPermissions, t * ALL_CLIENTS)
    && NameAllowed(t, name)
    && (t == NONE || c.clientType == NONE)
  }

  function Granted(c: Client, wanted: Mask): Mask {
    var t := Requested(c, wanted);
    var u := if CheckAll(t, {AdminClient}) && !CheckAll(c.maxPermissions, {ServerControl}) then t - {ServerControl} else t;
    var w := if c.detached && u != NONE then u + {DetachedClient} else u;
    w * c.maxPermissions
  }

  /** A registration attempt; `heard` says that the client to be notified is still attached. */
  function Attempted(c: Client, heard: bool, wanted: Mask, name: string, disable: bool): (a: Attempt)
    ensures a.ok <==> Allowed(c, wanted, name)
    ensures a.ok ==> Within(a.client.clientType, c.maxPermissions) && a.client.name == name
    ensures !a.ok ==> a.client == Cleared(c)
    ensures a.client.maxPermissions == c.maxPermissions && a.client.maxNewClient == c.maxNewClient
    // a notice uses the token up, and no token appears from nowhere
    ensures heard && HoldsToken(c) ==> Tokens(a.client) + (if a.notice.Some? then 1 else 0) <= 1
    ensures !heard ==> Tokens(a.client) == 0
    // the notice tells the outcome, and waits for a client that is not ready yet
    ensures a.notice == Some(true) <==> a.ok && a.client.clientType != NONE && c.freshClient && !disable
    ensures a.notice == Some(false) ==> !a.ok
    ensures a.ok && c.freshClient && disable && heard && a.client.clientType != NONE ==> a.client.notify == c.notify
  {
    var d := Cleared(c);
    if !Allowed(c, wanted, name) then
      // a deregistration that gives a name is refused without a word
      Attempt(d, false, if Requested(c, wanted) == NONE then None else Some(false))
    else
      var granted := Granted(c, wanted);
      var e := d.(clientType := granted, name := name);
      if granted != NONE && c.freshClient then
        if disable then
          Attempt(e.(notify := if heard then c.notify else None, reference := c.reference), true, None)
        else
          Attempt(e.(freshClient := false), true, Some(true))
      else
        Attempt(e, true, None)
  }

  /** Server control is never gained by registering: it takes a record that was created with it. */
  lemma ControlNeedsPermission(c: Client, heard: bool, wanted: Mask, name: string, disable: bool)
    requires CheckAll(Attempted(c, heard, wanted, name, disable).client.clientType, {ServerControl})
    requires Within(c.clientType, c.maxPermissions)
    ensures CheckAll(c.maxPermissions, {ServerControl})
  {
    var a := Attempted(c, heard, wanted, name, disable);
    CheckAllIsWithin(a.client.clientType, {ServerControl});
    CheckAllIsWithin(c.maxPermissions, {ServerControl});
  }

  /** The request asks to be a client of some kind other than a monitor. */
  predicate AsksForMore(wanted: Mask) {
    AdminClient in wanted || ServiceClient in wanted || ResourceClient in wanted || ControlClient in wanted
  }

  /** Without permission to monitor, that is given up if the client may be anything else and asks for it. */
  predicate GivesUpMonitoring(c: Client, wanted: Mask) {
    AnyClient in c.maxPermissions && MonitorClient !in c.maxPermissions && AsksForMore(wanted)
  }

  lemma CheckOne(mask: Mask, f: Flag)
    ensures CheckAll(mask, {f}) <==> f in mask
    ensures CheckAny(mask, {f}) <==> f in mask
  {
    if f !in mask {
      assert f in {f} - mask;
      assert mask * {f} == {};
    } else {
      assert f in mask * {f};
    }
  }

  lemma RequestedIs(c: Client, wanted: Mask)
    ensures Requested(c, wanted) == if GivesUpMonitoring(c, wanted) then wanted - {MonitorClient} else wanted
    ensures Requested(c, wanted) == NONE <==> wanted == NONE
  {
    CheckOne(c.maxPermissions, AnyClient);
    CheckOne(c.maxPermissions, MonitorClient);
    var rest := wanted * ALL_CLIENTS - {MonitorClient};
    assert AsksForMore(wanted) <==> rest != {} by {
      assert AdminClient in wanted ==> AdminClient in rest;
      assert ServiceClient in wanted ==> ServiceClient in rest;
      assert ResourceClient in wanted ==> ResourceClient in rest;
      assert ControlClient in wanted ==> ControlClient in rest;
    }
    if GivesUpMonitoring(c, wanted) {
      assert rest <= wanted - {MonitorClient};
    }
  }

  /**
   What an admitted client gets is what it asked for, as far as it is permitted: nothing else is added but that a
   detached client is known as one, and none of it is held back.
   */
  lemma GrantedExactly(c: Client, heard: bool, wanted: Mask, name: string, disable: bool)
    requires Attempted(c, heard, wanted, name, disable).ok
    ensures var granted := Attempted(c, heard, wanted, name, disable).client.clientType;
            && granted == c.maxPermissions * (wanted + if c.detached && wanted != {} then {DetachedClient} else {})
            && (forall f :: f in {AdminClient, ServiceClient, ResourceClient, ControlClient} && f in wanted ==> f in granted)
            && (MonitorClient in wanted && MonitorClient !in granted ==> GivesUpMonitoring(c, wanted))
            && (ServerControl in granted <==> ServerControl in wanted && ServerControl in c.maxPermissions)
            && (wanted == {} ==> granted == {})
  {
    var t := Requested(c, wanted);
    RequestedIs(c, wanted);
    CheckOne(c.maxPermissions, ServerControl);
    CheckOne(t, AdminClient);
    CheckAllIsWithin(c.maxPermissions, t * ALL_CLIENTS);
    assert t - {ServerControl} == NONE ==> AdminClient !in t;
  }

  /** A client that is admitted as a resource client is one, so that it may register services. */
  lemma ResourceClientIsGranted(c: Client, heard: bool, wanted: Mask, name: string, disable: bool)
    requires Attempted(c, heard, wanted, name, disable).ok && ResourceClient in wanted
    ensures CheckAll(Attempted(c, heard, wanted, name, disable).client.clientType, {ResourceClient})
  {
    GrantedExactly(c, heard, wanted, name, disable);
    CheckOne(Attempted(c, heard, wanted, name, disable).client.clientType, ResourceClient);
  }

  /**
   When a client is admitted: every kind that it asks for is permitted, but that monitoring may be given up; it is
   not registered yet, or asks for nothing; administrators and controllers have a name, and a mere monitor has none.
   */
  lemma AdmittedExactly(c: Client, heard: bool, wanted: Mask, name: string, disable: bool)
    ensures Attempted(c, heard, wanted, name, disable).ok <==>
            if wanted == {} then name == ""
            else
              && c.clientType == {}
              && (forall f :: f in {AdminClient, ServiceClient, ResourceClient, ControlClient} && f in wanted ==>
                    f in c.maxPermissions)
              && (MonitorClient in wanted ==> MonitorClient in c.maxPermissions || GivesUpMonitoring(c, wanted))
              && (if name == "" then AdminClient !in wanted && ControlClient !in wanted
                  else MonitorClient in wanted && !GivesUpMonitoring(c, wanted) ==>
                         AdminClient in wanted || ControlClient in wanted || ResourceClient in wanted)
  {
    var t := Requested(c, wanted);
    RequestedIs(c, wanted);
    CheckAllIsWithin(c.maxPermissions, t * ALL_CLIENTS);
    MonitorAlone(t);
    NamedKinds(t);
    assert Within(t * ALL_CLIENTS, c.maxPermissions) <==> (forall f :: f in ALL_CLIENTS && f in t ==> f in c.maxPermissions);
  }

  lemma MonitorAlone(t: Mask)
    ensures t * DENY_NAME_MASK == DENY_NAME <==>
            MonitorClient in t && AdminClient !in t && ControlClient !in t && ResourceClient !in t
  {
    var r := t * DENY_NAME_MASK;
    assert MonitorClient in r <==> MonitorClient in t;
    assert AdminClient in r <==> AdminClient in t;
    assert ControlClient in r <==> ControlClient in t;
    assert ResourceClient in r <==> ResourceClient in t;
  }

  lemma NamedKinds(t: Mask)
    ensures CheckAny(t, REQUIRE_NAME) <==> AdminClient in t || ControlClient in t
  {
    var r := t * REQUIRE_NAME;
    assert AdminClient in t ==> AdminClient in r;
    assert ControlClient in t ==> ControlClient in r;
  }

  /** Every attempt but a refused deregistration is answered, unless the answer waits until the client is ready. */
  lemma NoticeExactly(c: Client, heard: bool, wanted: Mask, name: string, disable: bool)
    ensures var a := Attempted(c, heard, wanted, name, disable);
            && (a.notice == Some(false) <==> !a.ok && wanted != {})
            && (a.notice == Some(true) <==> a.ok && a.client.clientType != {} && c.freshClient && !disable)
            && (a.ok ==> a.client.freshClient == (c.freshClient && (disable || a.client.clientType == {})))
            // the right to be told is kept for later exactly where the answer waits
            && (if a.ok && c.freshClient && disable && a.client.clientType != {}
                then a.client.notify == (if heard then c.notify else None) && a.client.reference == c.reference
                else a.client.notify == None && a.client.reference == 0)
  {
    RequestedIs(c, wanted);
  }
}
