/** The kernel side of the dataplane: one table, changed only by whole batches. */
module Kernel {
  import opened Wrappers
  import opened Net
  import opened Rules

  /** What the netlink layer answers to a batch by itself: nothing, ENOENT, or another error. */
  datatype FlushResult = FlushOk | FlushNoEnt | FlushFailed

  /** The answer to each flush, by its number. Statements are about every such function. */
  type Oracle = nat -> FlushResult

  datatype Msg =
    | AddElement(at: Slot, val: Bytes)
    | DelElement(at: Slot)
    | AddRule(rule: Rule)
    | DelTable

  /** The four maps and the prerouting chain. */
  datatype KernelState = KernelState(tables: Tables, chain: seq<Rule>)

  /** One message of a batch. Adding under a taken key with another value and
      deleting an absent key make the whole batch fail. */
  function Apply(k: KernelState, msg: Msg): Option<KernelState> {
    match msg
    case AddElement(at, val) =>
      if at in k.tables && k.tables[at] != val then None else Some(k.(tables := k.tables[at := val]))
    case DelElement(at) =>
      if at in k.tables then Some(k.(tables := k.tables - {at})) else None
    case AddRule(rule) => Some(k.(chain := k.chain + [rule]))
    case DelTable => Some(KernelState(map[], []))
  }

  function ApplyAll(k: KernelState, msgs: seq<Msg>): Option<KernelState> {
    if msgs == [] then Some(k)
    else
      var r := ApplyAll(k, msgs[..|msgs| - 1]);
      if r.None? then None else Apply(r.value, msgs[|msgs| - 1])
  }

  /** A flush: the batch is applied entirely or not at all. */
  function Transact(answer: FlushResult, k: KernelState, msgs: seq<Msg>): (r: (FlushResult, KernelState))
    ensures r.0 != FlushOk ==> r.1 == k
  {
    if answer != FlushOk then (answer, k)
    else
      var k' := ApplyAll(k, msgs);
      if k'.Some? then (FlushOk, k'.value) else (FlushFailed, k)
  }

  /** The nftables connection: messages are queued, and a flush sends and forgets them. */
  class NftConn {
    const oracle: Oracle
    var kernel: KernelState
    var pending: seq<Msg>
    var clock: nat

    constructor (oracle: Oracle, kernel: KernelState)
      ensures this.oracle == oracle && this.kernel == kernel && pending == [] && clock == 0
    {
      this.oracle := oracle;
      this.kernel := kernel;
      this.pending := [];
      this.clock := 0;
    }

    method Queue(msg: Msg)
      modifies this`pending
      ensures pending == old(pending) + [msg]
    {
      pending := pending + [msg];
    }

    method Flush() returns (result: FlushResult)
      modifies this
      ensures pending == [] && clock == old(clock) + 1
      ensures (result, kernel) == Transact(oracle(old(clock)), old(kernel), old(pending))
    {
      var answer := Transact(oracle(clock), kernel, pending);
      result, kernel := answer.0, answer.1;
      pending, clock := [], clock + 1;
    }
  }
}
