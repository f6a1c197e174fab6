/** Clients, as the server's tables and queues refer to them. */
module Entities {
  /** The identity of a client's record, never used again for another one. */
  type Handle = nat
}
