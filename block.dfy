/**
 * A block's events handled one after another at the same height. Because a
 * TokenBalance row's key holds only (height, address, denom), every write a
 * block makes to a pair lands on one row, and each handler reads that row
 * back as the latest balance: the block's deltas accumulate in it.
 */
module Block {
  import opened Optional
  import opened Balances
  import opened Storage
  import opened Handlers
  import opened HandlerProperties

  /** One handler invocation: the event, which handler it goes to, and the coins parsed from its amount. */
  datatype Call =
    | TransferCall(event: Event, coins: seq<Coin>)
    | MintCall(event: Event, coins: seq<Coin>)
    | BurnCall(event: Event, coins: seq<Coin>)

  ghost function Dispatch(t: Tables, call: Call, tracked: string -> bool): Handled {
    match call
    case TransferCall(ev, coins) => TransferEvent(t, ev, coins, tracked)
    case MintCall(ev, coins) => MintEvent(t, ev, coins, tracked)
    case BurnCall(ev, coins) => BurnEvent(t, ev, coins, tracked)
  }

  /** The calls run in order; the first call that throws ends the run. */
  ghost function Replay(t: Tables, calls: seq<Call>, tracked: string -> bool): Handled
    decreases |calls|
  {
    if calls == [] then Handled(t, Completed)
    else
      var first := Dispatch(t, calls[0], tracked);
      if first.outcome.Threw? then first else Replay(first.tables, calls[1..], tracked)
  }

  /** Net change one call makes to the latest balance of (address, denom). */
  function CallNet(call: Call, tracked: string -> bool, address: string, denom: string): int {
    match call
    case TransferCall(ev, coins) => TransferEventNet(ev, coins, tracked, address, denom)
    case MintCall(ev, coins) => MintEventNet(ev, coins, tracked, address, denom)
    case BurnCall(ev, coins) => BurnEventNet(ev, coins, tracked, address, denom)
  }

  /** Sum of the net changes of all calls. */
  function BlockNet(calls: seq<Call>, tracked: string -> bool, address: string, denom: string): int
    decreases |calls|
  {
    if calls == [] then 0
    else CallNet(calls[0], tracked, address, denom) + BlockNet(calls[1..], tracked, address, denom)
  }

  /** Any call, whatever its outcome, writes only rows at its event's height. */
  lemma DispatchFrame(t: Tables, call: Call, tracked: string -> bool)
    ensures OnlyAtHeight(t.balances, Dispatch(t, call, tracked).tables.balances, call.event.height)
  {
    match call
    case TransferCall(ev, coins) => TransferEventFrame(t, ev, coins, tracked);
    case MintCall(ev, coins) => MintEventFrame(t, ev, coins, tracked);
    case BurnCall(ev, coins) => BurnEventFrame(t, ev, coins, tracked);
  }

  /** Any call that does not throw shifts each latest balance by `CallNet`. */
  lemma DispatchEffect(t: Tables, call: Call, tracked: string -> bool, address: string, denom: string)
    requires Settled(t.balances, call.event.height)
    requires !Dispatch(t, call, tracked).outcome.Threw?
    ensures var t' := Dispatch(t, call, tracked).tables;
      Settled(t'.balances, call.event.height) &&
      Latest(t'.balances, address, denom)
        == Plus(Latest(t.balances, address, denom), CallNet(call, tracked, address, denom))
  {
    match call
    case TransferCall(ev, coins) => TransferEventEffect(t, ev, coins, tracked, address, denom);
    case MintCall(ev, coins) => MintEventEffect(t, ev, coins, tracked, address, denom);
    case BurnCall(ev, coins) => BurnEventEffect(t, ev, coins, tracked, address, denom);
  }

  /**
   * History is append-only: however a block of calls at `height` ends, every
   * row at another height is kept unchanged and every new row is at `height`.
   */
  lemma {:induction false} BlockWritesOnlyItsHeight(t: Tables, calls: seq<Call>, tracked: string -> bool, height: nat)
    requires forall i :: 0 <= i < |calls| ==> calls[i].event.height == height
    ensures OnlyAtHeight(t.balances, Replay(t, calls, tracked).tables.balances, height)
    decreases |calls|
  {
    if calls != [] {
      var first := Dispatch(t, calls[0], tracked);
      DispatchFrame(t, calls[0], tracked);
      if !first.outcome.Threw? {
        BlockWritesOnlyItsHeight(first.tables, calls[1..], tracked, height);
      }
    }
  }

  /**
   * Same-block coalescing: when no row lies above the block's height and no
   * call throws, the latest balance of every pair after the block is its
   * latest balance before plus the sum of the block's deltas for it, and the
   * pair gains at most one row, the one at the block's height.
   */
  lemma {:induction false} SameBlockCoalesces(t: Tables, calls: seq<Call>, tracked: string -> bool,
                                              height: nat, address: string, denom: string)
    requires Settled(t.balances, height)
    requires forall i :: 0 <= i < |calls| ==> calls[i].event.height == height
    requires !Replay(t, calls, tracked).outcome.Threw?
    ensures var t' := Replay(t, calls, tracked).tables;
      Latest(t'.balances, address, denom)
        == Plus(Latest(t.balances, address, denom), BlockNet(calls, tracked, address, denom)) &&
      Heights(t'.balances, address, denom) <= Heights(t.balances, address, denom) + {height}
    decreases |calls|
  {
    BlockWritesOnlyItsHeight(t, calls, tracked, height);
    if calls == [] {
      PlusZero(Latest(t.balances, address, denom));
    } else {
      var first := Dispatch(t, calls[0], tracked);
      DispatchEffect(t, calls[0], tracked, address, denom);
      SameBlockCoalesces(first.tables, calls[1..], tracked, height, address, denom);
      var after := Replay(first.tables, calls[1..], tracked).tables;
      PlusChain(Latest(t.balances, address, denom), Latest(first.tables.balances, address, denom),
                Latest(after.balances, address, denom), CallNet(calls[0], tracked, address, denom),
                BlockNet(calls[1..], tracked, address, denom), BlockNet(calls, tracked, address, denom));
    }
  }
}
