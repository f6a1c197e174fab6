/**
 Entity types and permission masks (libs/protocol/api-command.cpp, libs/include/protocol/api-command.h),
 a mask being the set of the flags that are raised in it.
 */
module Permissions {
  datatype Flag =
    | ServerFlag | AnyClient | ActiveClient | AdminClient | ServiceClient | MonitorClient
    | ResourceClient | ControlClient | DetachedClient | ServerControl

  type Mask = set<Flag>

  const NONE: Mask := {}

  const ALL_CLIENTS: Mask := {AdminClient, MonitorClient, ServiceClient, ResourceClient, ControlClient}
  const REQUIRE_NAME: Mask := {AdminClient, ControlClient}
  const DENY_NAME_MASK: Mask := {AdminClient, ControlClient, ResourceClient, MonitorClient}
  const DENY_NAME: Mask := {MonitorClient}

  /** Everything a client can be but the server's controller. */
  const MASK_ADMIN: Mask := ALL_CLIENTS + {AnyClient, ActiveClient, DetachedClient}

  /** What control and resource clients may be, less monitoring. */
  const MASK_DETACHED: Mask := {ControlClient, ResourceClient, ActiveClient, ServiceClient, AnyClient}

  predicate CheckAll(mask: Mask, required: Mask) {
    required - mask == {}
  }

  predicate CheckAny(mask: Mask, required: Mask) {
    mask * required != {} || required == {}
  }

  /** No flag of `inner` is outside `outer`. */
  predicate Within(inner: Mask, outer: Mask) {
    inner <= outer
  }

  lemma CheckAllIsWithin(mask: Mask, required: Mask)
    ensures CheckAll(mask, required) <==> Within(required, mask)
  {
    assert forall f :: f in required && f !in mask ==> f in required - mask;
  }
}
