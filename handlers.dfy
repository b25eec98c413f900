/**
 * The three event handlers: handleTransferEvent, handleMintEvent and
 * handleBurnEvent. Each reads its attributes, returns early when one is
 * missing, then walks the coin list: for every coin whose denom is tracked it
 * saves an audit record, reads the latest balance(s) of the pair(s) involved
 * and writes the new balance at the event's block height.
 *
 * Each handler is a method over a `Store`, proved equal to a ghost function
 * (`TransferEvent`, `MintEvent`, `BurnEvent`) that states its whole effect.
 * The coin list is what `parseCoins(amount)` yields, passed in; `tracked` is
 * the tracked-denom test.
 */
module Handlers {
  import opened Optional
  import opened Attributes
  import opened Balances
  import opened Storage

  /** One parsed coin: a denom and a non-negative amount. */
  datatype Coin = Coin(denom: string, amount: nat)

  /** The parts of a CosmosEvent the handlers read: block height, transaction hash, event index, attributes. */
  datatype Event = Event(height: nat, txHash: string, idx: nat, attributes: seq<Attribute>)

  /** Reading `.balance` of the `undefined` that the latest-balance query gave for this pair. */
  datatype Failure = UndefinedBalance(address: string, denom: string)

  /** How a handler call ends: normally, by one of its early returns, or by throwing. */
  datatype Outcome = Completed | MissingAttribute | NoCoins | Threw(failure: Failure)

  /** The store after a run over coins, and the failure that stopped it, if any. */
  datatype Run = Run(tables: Tables, failure: Option<Failure>)

  /** The store after a handler call, and how the call ended. */
  datatype Handled = Handled(tables: Tables, outcome: Outcome)

  function Finish(run: Run): Handled {
    Handled(run.tables, if run.failure.Some? then Threw(run.failure.value) else Completed)
  }

  // ---------------------------------------------------------------- transfer

  /**
   * Sender and recipient of a transfer event, or None when `denom`, `sender`,
   * `recipient` or `amount` is missing or empty. The `denom` attribute is
   * only tested here: the coin loop uses each coin's own denom.
   */
  function TransferParties(ev: Event): (r: Option<(string, string)>)
    ensures r.Some? <==>
      Present(ev.attributes, "denom") && Present(ev.attributes, "sender") &&
      Present(ev.attributes, "recipient") && Present(ev.attributes, "amount")
    ensures r.Some? ==>
      FirstValue(ev.attributes, "sender", r.value.0) && FirstValue(ev.attributes, "recipient", r.value.1)
  {
    TruthyFind(ev.attributes, "denom");
    TruthyFind(ev.attributes, "sender");
    TruthyFind(ev.attributes, "recipient");
    TruthyFind(ev.attributes, "amount");
    var sender := Find(ev.attributes, "sender");
    var recipient := Find(ev.attributes, "recipient");
    var denom := Find(ev.attributes, "denom");
    var amount := Find(ev.attributes, "amount");
    if Truthy(denom) && Truthy(sender) && Truthy(recipient) && Truthy(amount)
    then Some((sender.value, recipient.value))
    else None
  }

  /**
   * One tracked coin of a transfer: save the record (amount 0), read both
   * latest balances, then write the sender row and the recipient row at the
   * event's height. Both reads precede both writes.
   */
  ghost function TransferCoin(t: Tables, ev: Event, sender: string, recipient: string, coin: Coin): Run {
    var record := TransferRecord(ev.height, ev.txHash, 0, recipient, sender, coin.denom);
    var saved := t.(transfers := t.transfers[RecordId(ev.txHash, ev.idx) := record]);
    var senderBalance := Latest(t.balances, sender, coin.denom);
    var recipientBalance := Latest(t.balances, recipient, coin.denom);
    if senderBalance.None? then Run(saved, Some(UndefinedBalance(sender, coin.denom)))
    else
      var debited := t.balances[Key(ev.height, sender, coin.denom) := senderBalance.value - coin.amount];
      if recipientBalance.None? then
        Run(saved.(balances := debited), Some(UndefinedBalance(recipient, coin.denom)))
      else
        Run(saved.(balances := debited[Key(ev.height, recipient, coin.denom) := recipientBalance.value + coin.amount]), None)
  }

  /** The transfer loop over `coins`, skipping untracked denoms and stopping at the first throw. */
  ghost function TransferCoins(t: Tables, ev: Event, sender: string, recipient: string,
                               coins: seq<Coin>, tracked: string -> bool): Run
    decreases |coins|
  {
    if coins == [] then Run(t, None)
    else if !tracked(coins[0].denom) then TransferCoins(t, ev, sender, recipient, coins[1..], tracked)
    else
      var step := TransferCoin(t, ev, sender, recipient, coins[0]);
      if step.failure.Some? then step
      else TransferCoins(step.tables, ev, sender, recipient, coins[1..], tracked)
  }

  /** The whole effect of handleTransferEvent. */
  ghost function TransferEvent(t: Tables, ev: Event, coins: seq<Coin>, tracked: string -> bool): Handled {
    match TransferParties(ev)
    case None => Handled(t, MissingAttribute)
    case Some((sender, recipient)) =>
      if coins == [] then Handled(t, NoCoins)
      else Finish(TransferCoins(t, ev, sender, recipient, coins, tracked))
  }

  /** The body of the transfer loop for one tracked coin. */
  method TransferOneCoin(store: Store, ev: Event, from: string, to: string, coin: Coin)
    returns (failure: Option<Failure>)
    modifies store
    ensures Run(store.Snapshot(), failure) == TransferCoin(old(store.Snapshot()), ev, from, to, coin)
  {
    store.SaveTransfer(RecordId(ev.txHash, ev.idx), TransferRecord(ev.height, ev.txHash, 0, to, from, coin.denom));
    var senderBalance := store.LatestBalance(from, coin.denom);
    var recipientBalance := store.LatestBalance(to, coin.denom);
    if senderBalance.None? {
      return Some(UndefinedBalance(from, coin.denom));
    }
    store.SetBalance(Key(ev.height, from, coin.denom), senderBalance.value - coin.amount);
    if recipientBalance.None? {
      return Some(UndefinedBalance(to, coin.denom));
    }
    store.SetBalance(Key(ev.height, to, coin.denom), recipientBalance.value + coin.amount);
    return None;
  }

  method HandleTransferEvent(store: Store, ev: Event, coins: seq<Coin>, tracked: string -> bool)
    returns (outcome: Outcome)
    modifies store
    ensures Handled(store.Snapshot(), outcome) == TransferEvent(old(store.Snapshot()), ev, coins, tracked)
    ensures TransferParties(ev).None? ==> outcome == MissingAttribute && store.Snapshot() == old(store.Snapshot())
  {
    var sender := Find(ev.attributes, "sender");
    var recipient := Find(ev.attributes, "recipient");
    var denom := Find(ev.attributes, "denom");
    var amount := Find(ev.attributes, "amount");
    if !Truthy(denom) || !Truthy(sender) || !Truthy(recipient) || !Truthy(amount) {
      return MissingAttribute;
    }
    if |coins| == 0 {
      return NoCoins;
    }
    var from, to := sender.value, recipient.value;
    var i := 0;
    while i < |coins|
      invariant 0 <= i <= |coins|
      invariant TransferCoins(old(store.Snapshot()), ev, from, to, coins, tracked)
             == TransferCoins(store.Snapshot(), ev, from, to, coins[i..], tracked)
    {
      var coin := coins[i];
      assert coins[i..][0] == coin && coins[i..][1..] == coins[i + 1..];
      if tracked(coin.denom) {
        var failure := TransferOneCoin(store, ev, from, to, coin);
        if failure.Some? {
          return Threw(failure.value);
        }
      }
      i := i + 1;
    }
    return Completed;
  }

  // -------------------------------------------------------------------- mint

  /** Recipient of a mint event (`mint_to_address`), or None when it or `amount` is missing or empty. */
  function MintRecipient(ev: Event): (r: Option<string>)
    ensures r.Some? <==> Present(ev.attributes, "amount") && Present(ev.attributes, "mint_to_address")
    ensures r.Some? ==> FirstValue(ev.attributes, "mint_to_address", r.value)
  {
    TruthyFind(ev.attributes, "amount");
    TruthyFind(ev.attributes, "mint_to_address");
    var amount := Find(ev.attributes, "amount");
    var recipient := Find(ev.attributes, "mint_to_address");
    if Truthy(amount) && Truthy(recipient) then Some(recipient.value) else None
  }

  /** One tracked coin of a mint: save the record, read the recipient's latest balance, credit it. */
  ghost function MintCoin(t: Tables, ev: Event, recipient: string, coin: Coin): Run {
    var saved := t.(mints := t.mints[RecordId(ev.txHash, ev.idx) := MintRecord(ev.height, ev.txHash, coin.denom, coin.amount)]);
    var balance := Latest(t.balances, recipient, coin.denom);
    if balance.None? then Run(saved, Some(UndefinedBalance(recipient, coin.denom)))
    else Run(saved.(balances := t.balances[Key(ev.height, recipient, coin.denom) := balance.value + coin.amount]), None)
  }

  ghost function MintCoins(t: Tables, ev: Event, recipient: string, coins: seq<Coin>, tracked: string -> bool): Run
    decreases |coins|
  {
    if coins == [] then Run(t, None)
    else if !tracked(coins[0].denom) then MintCoins(t, ev, recipient, coins[1..], tracked)
    else
      var step := MintCoin(t, ev, recipient, coins[0]);
      if step.failure.Some? then step
      else MintCoins(step.tables, ev, recipient, coins[1..], tracked)
  }

  /** The whole effect of handleMintEvent. */
  ghost function MintEvent(t: Tables, ev: Event, coins: seq<Coin>, tracked: string -> bool): Handled {
    match MintRecipient(ev)
    case None => Handled(t, MissingAttribute)
    case Some(recipient) => Finish(MintCoins(t, ev, recipient, coins, tracked))
  }

  /** The body of the mint loop for one tracked coin. */
  method MintOneCoin(store: Store, ev: Event, to: string, coin: Coin) returns (failure: Option<Failure>)
    modifies store
    ensures Run(store.Snapshot(), failure) == MintCoin(old(store.Snapshot()), ev, to, coin)
  {
    store.SaveMint(RecordId(ev.txHash, ev.idx), MintRecord(ev.height, ev.txHash, coin.denom, coin.amount));
    var balance := store.LatestBalance(to, coin.denom);
    if balance.None? {
      return Some(UndefinedBalance(to, coin.denom));
    }
    store.SetBalance(Key(ev.height, to, coin.denom), balance.value + coin.amount);
    return None;
  }

  method HandleMintEvent(store: Store, ev: Event, coins: seq<Coin>, tracked: string -> bool)
    returns (outcome: Outcome)
    modifies store
    ensures Handled(store.Snapshot(), outcome) == MintEvent(old(store.Snapshot()), ev, coins, tracked)
    ensures MintRecipient(ev).None? ==> outcome == MissingAttribute && store.Snapshot() == old(store.Snapshot())
  {
    var amount := Find(ev.attributes, "amount");
    var recipient := Find(ev.attributes, "mint_to_address");
    if !Truthy(amount) || !Truthy(recipient) {
      return MissingAttribute;
    }
    var to := recipient.value;
    var i := 0;
    while i < |coins|
      invariant 0 <= i <= |coins|
      invariant MintCoins(old(store.Snapshot()), ev, to, coins, tracked)
             == MintCoins(store.Snapshot(), ev, to, coins[i..], tracked)
    {
      var coin := coins[i];
      assert coins[i..][0] == coin && coins[i..][1..] == coins[i + 1..];
      if tracked(coin.denom) {
        var failure := MintOneCoin(store, ev, to, coin);
        if failure.Some? {
          return Threw(failure.value);
        }
      }
      i := i + 1;
    }
    return Completed;
  }

  // -------------------------------------------------------------------- burn

  /** Sender of a burn event (`burn_from_address`), or None when it or `amount` is missing or empty. */
  function BurnSender(ev: Event): (r: Option<string>)
    ensures r.Some? <==> Present(ev.attributes, "amount") && Present(ev.attributes, "burn_from_address")
    ensures r.Some? ==> FirstValue(ev.attributes, "burn_from_address", r.value)
  {
    TruthyFind(ev.attributes, "amount");
    TruthyFind(ev.attributes, "burn_from_address");
    var amount := Find(ev.attributes, "amount");
    var sender := Find(ev.attributes, "burn_from_address");
    if Truthy(amount) && Truthy(sender) then Some(sender.value) else None
  }

  /** One tracked coin of a burn: save the record, read the sender's latest balance, debit it. */
  ghost function BurnCoin(t: Tables, ev: Event, sender: string, coin: Coin): Run {
    var saved := t.(burns := t.burns[RecordId(ev.txHash, ev.idx) := BurnRecord(ev.height, ev.txHash, coin.denom, coin.amount)]);
    var balance := Latest(t.balances, sender, coin.denom);
    if balance.None? then Run(saved, Some(UndefinedBalance(sender, coin.denom)))
    else Run(saved.(balances := t.balances[Key(ev.height, sender, coin.denom) := balance.value - coin.amount]), None)
  }

  ghost function BurnCoins(t: Tables, ev: Event, sender: string, coins: seq<Coin>, tracked: string -> bool): Run
    decreases |coins|
  {
    if coins == [] then Run(t, None)
    else if !tracked(coins[0].denom) then BurnCoins(t, ev, sender, coins[1..], tracked)
    else
      var step := BurnCoin(t, ev, sender, coins[0]);
      if step.failure.Some? then step
      else BurnCoins(step.tables, ev, sender, coins[1..], tracked)
  }

  /** The whole effect of handleBurnEvent. */
  ghost function BurnEvent(t: Tables, ev: Event, coins: seq<Coin>, tracked: string -> bool): Handled {
    match BurnSender(ev)
    case None => Handled(t, MissingAttribute)
    case Some(sender) => Finish(BurnCoins(t, ev, sender, coins, tracked))
  }

  /** The body of the burn loop for one tracked coin. */
  method BurnOneCoin(store: Store, ev: Event, from: string, coin: Coin) returns (failure: Option<Failure>)
    modifies store
    ensures Run(store.Snapshot(), failure) == BurnCoin(old(store.Snapshot()), ev, from, coin)
  {
    store.SaveBurn(RecordId(ev.txHash, ev.idx), BurnRecord(ev.height, ev.txHash, coin.denom, coin.amount));
    var balance := store.LatestBalance(from, coin.denom);
    if balance.None? {
      return Some(UndefinedBalance(from, coin.denom));
    }
    store.SetBalance(Key(ev.height, from, coin.denom), balance.value - coin.amount);
    return None;
  }

  method HandleBurnEvent(store: Store, ev: Event, coins: seq<Coin>, tracked: string -> bool)
    returns (outcome: Outcome)
    modifies store
    ensures Handled(store.Snapshot(), outcome) == BurnEvent(old(store.Snapshot()), ev, coins, tracked)
    ensures BurnSender(ev).None? ==> outcome == MissingAttribute && store.Snapshot() == old(store.Snapshot())
  {
    var amount := Find(ev.attributes, "amount");
    var sender := Find(ev.attributes, "burn_from_address");
    if !Truthy(amount) || !Truthy(sender) {
      return MissingAttribute;
    }
    var from := sender.value;
    var i := 0;
    while i < |coins|
      invariant 0 <= i <= |coins|
      invariant BurnCoins(old(store.Snapshot()), ev, from, coins, tracked)
             == BurnCoins(store.Snapshot(), ev, from, coins[i..], tracked)
    {
      var coin := coins[i];
      assert coins[i..][0] == coin && coins[i..][1..] == coins[i + 1..];
      if tracked(coin.denom) {
        var failure := BurnOneCoin(store, ev, from, coin);
        if failure.Some? {
          return Threw(failure.value);
        }
      }
      i := i + 1;
    }
    return Completed;
  }
}
