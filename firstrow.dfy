/**
 * The first TokenBalance row of a pair. The handlers read `.balance` of the
 * latest row; for a pair with no row the query yields `undefined` and the
 * read throws, so no handler ever writes a pair's first row. The comments in
 * handleMintEvent and handleBurnEvent say the row is created when it does not
 * exist; the corrected mint and burn here read a missing balance as 0.
 */
module FirstBalance {
  import opened Optional
  import opened Balances
  import opened Storage
  import opened Handlers
  import opened HandlerProperties

  // ------------------------------------------------------------- as written

  /** One mint coin never gives a row to a pair that has none. */
  lemma MintCoinKeepsNoRow(t: Tables, ev: Event, recipient: string, coin: Coin, a: string, d: string)
    requires Latest(t.balances, a, d).None?
    ensures Latest(MintCoin(t, ev, recipient, coin).tables.balances, a, d).None?
  {
    var b := Latest(t.balances, recipient, coin.denom);
    if b.Some? {
      LatestOfOtherPair(t.balances, ev.height, recipient, coin.denom, b.value + coin.amount, a, d);
    }
  }

  /** One burn coin never gives a row to a pair that has none. */
  lemma BurnCoinKeepsNoRow(t: Tables, ev: Event, sender: string, coin: Coin, a: string, d: string)
    requires Latest(t.balances, a, d).None?
    ensures Latest(BurnCoin(t, ev, sender, coin).tables.balances, a, d).None?
  {
    var b := Latest(t.balances, sender, coin.denom);
    if b.Some? {
      LatestOfOtherPair(t.balances, ev.height, sender, coin.denom, b.value - coin.amount, a, d);
    }
  }

  /** One transfer coin never gives a row to a pair that has none. */
  lemma TransferCoinKeepsNoRow(t: Tables, ev: Event, sender: string, recipient: string, coin: Coin, a: string, d: string)
    requires Latest(t.balances, a, d).None?
    ensures Latest(TransferCoin(t, ev, sender, recipient, coin).tables.balances, a, d).None?
  {
    var b, h, dn := t.balances, ev.height, coin.denom;
    var s, r := Latest(b, sender, dn), Latest(b, recipient, dn);
    if s.Some? {
      var b1 := b[Key(h, sender, dn) := s.value - coin.amount];
      LatestOfOtherPair(b, h, sender, dn, s.value - coin.amount, a, d);
      if r.Some? {
        LatestOfOtherPair(b1, h, recipient, dn, r.value + coin.amount, a, d);
      }
    }
  }

  lemma {:induction false} MintCoinsKeepNoRow(t: Tables, ev: Event, recipient: string, coins: seq<Coin>,
                                              tracked: string -> bool, a: string, d: string)
    requires Latest(t.balances, a, d).None?
    ensures Latest(MintCoins(t, ev, recipient, coins, tracked).tables.balances, a, d).None?
    decreases |coins|
  {
    if coins != [] {
      if !tracked(coins[0].denom) {
        MintCoinsKeepNoRow(t, ev, recipient, coins[1..], tracked, a, d);
      } else {
        var step := MintCoin(t, ev, recipient, coins[0]);
        MintCoinKeepsNoRow(t, ev, recipient, coins[0], a, d);
        if step.failure.None? {
          MintCoinsKeepNoRow(step.tables, ev, recipient, coins[1..], tracked, a, d);
        }
      }
    }
  }

  lemma {:induction false} BurnCoinsKeepNoRow(t: Tables, ev: Event, sender: string, coins: seq<Coin>,
                                              tracked: string -> bool, a: string, d: string)
    requires Latest(t.balances, a, d).None?
    ensures Latest(BurnCoins(t, ev, sender, coins, tracked).tables.balances, a, d).None?
    decreases |coins|
  {
    if coins != [] {
      if !tracked(coins[0].denom) {
        BurnCoinsKeepNoRow(t, ev, sender, coins[1..], tracked, a, d);
      } else {
        var step := BurnCoin(t, ev, sender, coins[0]);
        BurnCoinKeepsNoRow(t, ev, sender, coins[0], a, d);
        if step.failure.None? {
          BurnCoinsKeepNoRow(step.tables, ev, sender, coins[1..], tracked, a, d);
        }
      }
    }
  }

  lemma {:induction false} TransferCoinsKeepNoRow(t: Tables, ev: Event, sender: string, recipient: string,
                                                  coins: seq<Coin>, tracked: string -> bool, a: string, d: string)
    requires Latest(t.balances, a, d).None?
    ensures Latest(TransferCoins(t, ev, sender, recipient, coins, tracked).tables.balances, a, d).None?
    decreases |coins|
  {
    if coins != [] {
      if !tracked(coins[0].denom) {
        TransferCoinsKeepNoRow(t, ev, sender, recipient, coins[1..], tracked, a, d);
      } else {
        var step := TransferCoin(t, ev, sender, recipient, coins[0]);
        TransferCoinKeepsNoRow(t, ev, sender, recipient, coins[0], a, d);
        if step.failure.None? {
          TransferCoinsKeepNoRow(step.tables, ev, sender, recipient, coins[1..], tracked, a, d);
        }
      }
    }
  }

  /** As written, handleMintEvent, on any outcome, leaves a pair without a row without one. */
  lemma MintNeverCreatesRow(t: Tables, ev: Event, coins: seq<Coin>, tracked: string -> bool, a: string, d: string)
    requires Latest(t.balances, a, d).None?
    ensures Latest(MintEvent(t, ev, coins, tracked).tables.balances, a, d).None?
  {
    if MintRecipient(ev).Some? {
      MintCoinsKeepNoRow(t, ev, MintRecipient(ev).value, coins, tracked, a, d);
    }
  }

  /** As written, handleBurnEvent, on any outcome, leaves a pair without a row without one. */
  lemma BurnNeverCreatesRow(t: Tables, ev: Event, coins: seq<Coin>, tracked: string -> bool, a: string, d: string)
    requires Latest(t.balances, a, d).None?
    ensures Latest(BurnEvent(t, ev, coins, tracked).tables.balances, a, d).None?
  {
    if BurnSender(ev).Some? {
      BurnCoinsKeepNoRow(t, ev, BurnSender(ev).value, coins, tracked, a, d);
    }
  }

  /** As written, handleTransferEvent, on any outcome, leaves a pair without a row without one. */
  lemma TransferNeverCreatesRow(t: Tables, ev: Event, coins: seq<Coin>, tracked: string -> bool, a: string, d: string)
    requires Latest(t.balances, a, d).None?
    ensures Latest(TransferEvent(t, ev, coins, tracked).tables.balances, a, d).None?
  {
    if TransferParties(ev).Some? && coins != [] {
      var (sender, recipient) := TransferParties(ev).value;
      TransferCoinsKeepNoRow(t, ev, sender, recipient, coins, tracked, a, d);
    }
  }

  /** As written, minting a tracked coin to an address with no row of its denom throws. */
  lemma FirstMintThrows(t: Tables, ev: Event, tracked: string -> bool, denom: string, amount: nat)
    requires MintRecipient(ev).Some? && tracked(denom)
    requires Latest(t.balances, MintRecipient(ev).value, denom).None?
    ensures MintEvent(t, ev, [Coin(denom, amount)], tracked).outcome == Threw(UndefinedBalance(MintRecipient(ev).value, denom))
  {
    var coins := [Coin(denom, amount)];
    assert MintCoins(t, ev, MintRecipient(ev).value, coins, tracked) == MintCoin(t, ev, MintRecipient(ev).value, coins[0]);
  }

  // -------------------------------------------------------------- corrected

  /** The balance the code means to read: an absent row counts as 0. */
  function OrZero(balance: Option<int>): int {
    if balance.Some? then balance.value else 0
  }

  /** One tracked mint coin, reading a missing balance as 0: it never throws. */
  ghost function MintCoinOrZero(t: Tables, ev: Event, recipient: string, coin: Coin): Tables {
    var saved := t.(mints := t.mints[RecordId(ev.txHash, ev.idx) := MintRecord(ev.height, ev.txHash, coin.denom, coin.amount)]);
    var balance := OrZero(Latest(t.balances, recipient, coin.denom));
    saved.(balances := t.balances[Key(ev.height, recipient, coin.denom) := balance + coin.amount])
  }

  ghost function MintCoinsOrZero(t: Tables, ev: Event, recipient: string, coins: seq<Coin>, tracked: string -> bool): Tables
    decreases |coins|
  {
    if coins == [] then t
    else if !tracked(coins[0].denom) then MintCoinsOrZero(t, ev, recipient, coins[1..], tracked)
    else MintCoinsOrZero(MintCoinOrZero(t, ev, recipient, coins[0]), ev, recipient, coins[1..], tracked)
  }

  /** handleMintEvent as its comment describes it: the recipient's row is updated if it exists, otherwise created. */
  ghost function MintEventOrZero(t: Tables, ev: Event, coins: seq<Coin>, tracked: string -> bool): Handled {
    match MintRecipient(ev)
    case None => Handled(t, MissingAttribute)
    case Some(recipient) => Handled(MintCoinsOrZero(t, ev, recipient, coins, tracked), Completed)
  }

  /** One corrected mint coin: the recipient's pair now has a row, and every balance, read as 0 when absent, moves by its share. */
  lemma MintCoinOrZeroEffect(t: Tables, ev: Event, recipient: string, coin: Coin, address: string, denom: string)
    requires Settled(t.balances, ev.height)
    ensures var t' := MintCoinOrZero(t, ev, recipient, coin);
      Settled(t'.balances, ev.height) &&
      Latest(t'.balances, recipient, coin.denom).Some? &&
      OrZero(Latest(t'.balances, address, denom)) == OrZero(Latest(t.balances, address, denom))
        + (if (address, denom) == (recipient, coin.denom) then coin.amount else 0)
  {
    var b, h, d := t.balances, ev.height, coin.denom;
    var v := OrZero(Latest(b, recipient, d)) + coin.amount;
    assert MintCoinOrZero(t, ev, recipient, coin).balances == b[Key(h, recipient, d) := v];
    LatestAfterWrite(b, h, recipient, d, v);
    if (address, denom) != (recipient, d) {
      LatestOfOtherPair(b, h, recipient, d, v, address, denom);
    }
  }

  /** The corrected mint loop moves every balance, read as 0 when absent, by `MintNet`. */
  lemma {:induction false} MintCoinsOrZeroEffect(t: Tables, ev: Event, recipient: string, coins: seq<Coin>,
                                                 tracked: string -> bool, address: string, denom: string)
    requires Settled(t.balances, ev.height)
    ensures var t' := MintCoinsOrZero(t, ev, recipient, coins, tracked);
      Settled(t'.balances, ev.height) &&
      OrZero(Latest(t'.balances, address, denom))
        == OrZero(Latest(t.balances, address, denom)) + MintNet(recipient, coins, tracked, address, denom)
    decreases |coins|
  {
    if coins != [] {
      var coin, rest := coins[0], coins[1..];
      var share := if tracked(coin.denom) && coin.denom == denom then coin.amount else 0;
      assert TrackedSum(coins, tracked, denom) == share + TrackedSum(rest, tracked, denom);
      if !tracked(coin.denom) {
        MintCoinsOrZeroEffect(t, ev, recipient, rest, tracked, address, denom);
      } else {
        var step := MintCoinOrZero(t, ev, recipient, coin);
        MintCoinOrZeroEffect(t, ev, recipient, coin, address, denom);
        MintCoinsOrZeroEffect(step, ev, recipient, rest, tracked, address, denom);
      }
    }
  }

  /**
   * The corrected handleMintEvent never throws; each balance, read as 0 when
   * absent, rises by the tracked amount minted to it.
   */
  lemma MintEventOrZeroCredits(t: Tables, ev: Event, coins: seq<Coin>, tracked: string -> bool, address: string, denom: string)
    requires Settled(t.balances, ev.height)
    ensures var result := MintEventOrZero(t, ev, coins, tracked);
      !result.outcome.Threw? &&
      Settled(result.tables.balances, ev.height) &&
      OrZero(Latest(result.tables.balances, address, denom))
        == OrZero(Latest(t.balances, address, denom)) + MintEventNet(ev, coins, tracked, address, denom)
  {
    if MintRecipient(ev).Some? {
      MintCoinsOrZeroEffect(t, ev, MintRecipient(ev).value, coins, tracked, address, denom);
    }
  }

  /** Corrected, the first mint to an address creates its row, holding the minted amount. */
  lemma FirstMintCreatesRow(t: Tables, ev: Event, tracked: string -> bool, denom: string, amount: nat)
    requires Settled(t.balances, ev.height)
    requires MintRecipient(ev).Some? && tracked(denom)
    requires Latest(t.balances, MintRecipient(ev).value, denom).None?
    ensures var result := MintEventOrZero(t, ev, [Coin(denom, amount)], tracked);
      result.outcome == Completed &&
      Latest(result.tables.balances, MintRecipient(ev).value, denom) == Some(amount)
  {
    var recipient, coin := MintRecipient(ev).value, Coin(denom, amount);
    var step := MintCoinOrZero(t, ev, recipient, coin);
    assert MintCoinsOrZero(t, ev, recipient, [coin], tracked) == MintCoinsOrZero(step, ev, recipient, [], tracked);
    LatestAfterWrite(t.balances, ev.height, recipient, denom, amount);
  }

  /** One tracked burn coin, reading a missing balance as 0: it never throws, and a first burn leaves a negative row. */
  ghost function BurnCoinOrZero(t: Tables, ev: Event, sender: string, coin: Coin): Tables {
    var saved := t.(burns := t.burns[RecordId(ev.txHash, ev.idx) := BurnRecord(ev.height, ev.txHash, coin.denom, coin.amount)]);
    var balance := OrZero(Latest(t.balances, sender, coin.denom));
    saved.(balances := t.balances[Key(ev.height, sender, coin.denom) := balance - coin.amount])
  }

  ghost function BurnCoinsOrZero(t: Tables, ev: Event, sender: string, coins: seq<Coin>, tracked: string -> bool): Tables
    decreases |coins|
  {
    if coins == [] then t
    else if !tracked(coins[0].denom) then BurnCoinsOrZero(t, ev, sender, coins[1..], tracked)
    else BurnCoinsOrZero(BurnCoinOrZero(t, ev, sender, coins[0]), ev, sender, coins[1..], tracked)
  }

  /** handleBurnEvent as its comment describes it: the sender's row is updated if it exists, otherwise created. */
  ghost function BurnEventOrZero(t: Tables, ev: Event, coins: seq<Coin>, tracked: string -> bool): Handled {
    match BurnSender(ev)
    case None => Handled(t, MissingAttribute)
    case Some(sender) => Handled(BurnCoinsOrZero(t, ev, sender, coins, tracked), Completed)
  }

  /** One corrected burn coin: the sender's pair now has a row, and every balance, read as 0 when absent, moves by its share. */
  lemma BurnCoinOrZeroEffect(t: Tables, ev: Event, sender: string, coin: Coin, address: string, denom: string)
    requires Settled(t.balances, ev.height)
    ensures var t' := BurnCoinOrZero(t, ev, sender, coin);
      Settled(t'.balances, ev.height) &&
      Latest(t'.balances, sender, coin.denom).Some? &&
      OrZero(Latest(t'.balances, address, denom)) == OrZero(Latest(t.balances, address, denom))
        - (if (address, denom) == (sender, coin.denom) then coin.amount else 0)
  {
    var b, h, d := t.balances, ev.height, coin.denom;
    var v := OrZero(Latest(b, sender, d)) - coin.amount;
    assert BurnCoinOrZero(t, ev, sender, coin).balances == b[Key(h, sender, d) := v];
    LatestAfterWrite(b, h, sender, d, v);
    if (address, denom) != (sender, d) {
      LatestOfOtherPair(b, h, sender, d, v, address, denom);
    }
  }

  /** The corrected burn loop moves every balance, read as 0 when absent, by `BurnNet`. */
  lemma {:induction false} BurnCoinsOrZeroEffect(t: Tables, ev: Event, sender: string, coins: seq<Coin>,
                                                 tracked: string -> bool, address: string, denom: string)
    requires Settled(t.balances, ev.height)
    ensures var t' := BurnCoinsOrZero(t, ev, sender, coins, tracked);
      Settled(t'.balances, ev.height) &&
      OrZero(Latest(t'.balances, address, denom))
        == OrZero(Latest(t.balances, address, denom)) + BurnNet(sender, coins, tracked, address, denom)
    decreases |coins|
  {
    if coins != [] {
      var coin, rest := coins[0], coins[1..];
      var share := if tracked(coin.denom) && coin.denom == denom then coin.amount else 0;
      assert TrackedSum(coins, tracked, denom) == share + TrackedSum(rest, tracked, denom);
      if !tracked(coin.denom) {
        BurnCoinsOrZeroEffect(t, ev, sender, rest, tracked, address, denom);
      } else {
        var step := BurnCoinOrZero(t, ev, sender, coin);
        BurnCoinOrZeroEffect(t, ev, sender, coin, address, denom);
        BurnCoinsOrZeroEffect(step, ev, sender, rest, tracked, address, denom);
      }
    }
  }

  /**
   * The corrected handleBurnEvent never throws; each balance, read as 0 when
   * absent, falls by the tracked amount burned from it.
   */
  lemma BurnEventOrZeroDebits(t: Tables, ev: Event, coins: seq<Coin>, tracked: string -> bool, address: string, denom: string)
    requires Settled(t.balances, ev.height)
    ensures var result := BurnEventOrZero(t, ev, coins, tracked);
      !result.outcome.Threw? &&
      Settled(result.tables.balances, ev.height) &&
      OrZero(Latest(result.tables.balances, address, denom))
        == OrZero(Latest(t.balances, address, denom)) + BurnEventNet(ev, coins, tracked, address, denom)
  {
    if BurnSender(ev).Some? {
      BurnCoinsOrZeroEffect(t, ev, BurnSender(ev).value, coins, tracked, address, denom);
    }
  }

  /** Corrected, a first burn from an address creates its row holding the negated amount. */
  lemma FirstBurnCreatesNegativeRow(t: Tables, ev: Event, tracked: string -> bool, denom: string, amount: nat)
    requires Settled(t.balances, ev.height)
    requires BurnSender(ev).Some? && tracked(denom)
    requires Latest(t.balances, BurnSender(ev).value, denom).None?
    ensures var result := BurnEventOrZero(t, ev, [Coin(denom, amount)], tracked);
      result.outcome == Completed &&
      Latest(result.tables.balances, BurnSender(ev).value, denom) == Some(-(amount as int))
  {
    var sender, coin := BurnSender(ev).value, Coin(denom, amount);
    var step := BurnCoinOrZero(t, ev, sender, coin);
    assert BurnCoinsOrZero(t, ev, sender, [coin], tracked) == BurnCoinsOrZero(step, ev, sender, [], tracked);
    LatestAfterWrite(t.balances, ev.height, sender, denom, -(amount as int));
  }
}
