/**
 * The MessageChaining record: which mobile request (connection key and
 * mobile correlation id) an HMI leg belongs to, how many HMI responses it
 * still waits for, and an optional payload snapshot.  The class itself
 * (message_chaining.h) is not part of this model; its three behaviours the
 * store relies on are fixed here as parameters of the model:
 *  - a new record starts with a counter given by the caller of the store,
 *  - DecrementCounter lowers the counter by one and stays at 0 (no underflow),
 *  - operator== compares connection key, correlation id and counter, not the payload.
 */
module MessageChaining {
  import opened Common

  datatype Chain = Chain(connectionKey: Uint32, correlationId: Uint32, counter: nat, data: Option<Payload>)

  /** `new MessageChaining(connection_key, correlation_id)` followed by `set_data` when data is given. */
  function NewChain(connectionKey: Uint32, correlationId: Uint32, initialCounter: nat, data: Option<Payload>): Chain {
    Chain(connectionKey, correlationId, initialCounter, data)
  }

  /** DecrementCounter */
  function Decremented(c: Chain): (d: Chain)
    ensures d.connectionKey == c.connectionKey && d.correlationId == c.correlationId && d.data == c.data
    ensures c.counter > 0 ==> d.counter == c.counter - 1
    ensures c.counter == 0 ==> d.counter == 0
  {
    c.(counter := if c.counter > 0 then c.counter - 1 else 0)
  }

  /** operator== */
  predicate SameChain(a: Chain, b: Chain) {
    a.connectionKey == b.connectionKey && a.correlationId == b.correlationId && a.counter == b.counter
  }
}
