/**
 * What the handlers do to the TokenBalance table, stated against reference
 * definitions: the net change each handler makes to the latest balance of
 * every (address, denom) pair, the rows it may write, the records it leaves
 * behind, and the coins it ignores.
 */
module HandlerProperties {
  import opened Optional
  import opened Balances
  import opened Storage
  import opened Handlers

  // ------------------------------------------------------ reference definitions

  /** Total amount of the coins of `denom` in `coins` that pass the tracked test. */
  function TrackedSum(coins: seq<Coin>, tracked: string -> bool, denom: string): nat
    decreases |coins|
  {
    if coins == [] then 0
    else (if tracked(coins[0].denom) && coins[0].denom == denom then coins[0].amount else 0)
         + TrackedSum(coins[1..], tracked, denom)
  }

  /** The coins that pass the tracked test, in order. */
  function OnlyTracked(coins: seq<Coin>, tracked: string -> bool): (r: seq<Coin>)
    ensures forall c :: c in r ==> c in coins && tracked(c.denom)
    ensures |r| <= |coins|
    decreases |coins|
  {
    if coins == [] then []
    else (if tracked(coins[0].denom) then [coins[0]] else []) + OnlyTracked(coins[1..], tracked)
  }

  /** The denoms of the coins that pass the tracked test: the only denoms a handler may write rows for. */
  function CoinDenoms(coins: seq<Coin>, tracked: string -> bool): set<string> {
    set c | c in coins && tracked(c.denom) :: c.denom
  }

  /**
   * Net change a transfer makes to the latest balance of (address, denom):
   * the recipient gains the tracked amount; the sender, when it is another
   * address, loses it. A self-transfer therefore credits its address, since
   * the recipient write (old balance + amount) overwrites the sender write.
   */
  function TransferNet(sender: string, recipient: string, coins: seq<Coin>, tracked: string -> bool,
                       address: string, denom: string): int
  {
    if address == recipient then TrackedSum(coins, tracked, denom)
    else if address == sender then -(TrackedSum(coins, tracked, denom) as int)
    else 0
  }

  /** Net change a mint makes to the latest balance of (address, denom). */
  function MintNet(recipient: string, coins: seq<Coin>, tracked: string -> bool, address: string, denom: string): int {
    if address == recipient then TrackedSum(coins, tracked, denom) else 0
  }

  /** Net change a burn makes to the latest balance of (address, denom). */
  function BurnNet(sender: string, coins: seq<Coin>, tracked: string -> bool, address: string, denom: string): int {
    if address == sender then -(TrackedSum(coins, tracked, denom) as int) else 0
  }

  lemma PlusZero(balance: Option<int>)
    ensures Plus(balance, 0) == balance
  {
  }

  /** Two successive shifts of a balance add up. */
  lemma PlusChain(b0: Option<int>, b1: Option<int>, b2: Option<int>, x: int, y: int, z: int)
    requires b1 == Plus(b0, x) && b2 == Plus(b1, y) && z == x + y
    ensures b2 == Plus(b0, z)
  {
  }

  // ---------------------------------------------------------------- transfer

  /**
   * One tracked coin: the call fails exactly when the sender or the recipient
   * has no row; the sender row is written before a missing recipient throws;
   * on success the two rows at the event height hold old sender balance -
   * amount and old recipient balance + amount (for a self-transfer, the one
   * row holds old balance + amount).
   */
  lemma TransferCoinReadsThenWrites(t: Tables, ev: Event, sender: string, recipient: string, coin: Coin)
    ensures var run := TransferCoin(t, ev, sender, recipient, coin);
      var s := Latest(t.balances, sender, coin.denom);
      var r := Latest(t.balances, recipient, coin.denom);
      var sk, rk := Key(ev.height, sender, coin.denom), Key(ev.height, recipient, coin.denom);
      (run.failure.None? <==> s.Some? && r.Some?) &&
      (s.None? ==> run.tables.balances == t.balances) &&
      (s.Some? && r.None? ==> run.tables.balances == t.balances[sk := s.value - coin.amount]) &&
      (run.failure.None? && sender != recipient ==>
         run.tables.balances[sk] == s.value - coin.amount && run.tables.balances[rk] == r.value + coin.amount) &&
      (run.failure.None? && sender == recipient ==> run.tables.balances[sk] == s.value + coin.amount)
  {
  }

  /** One tracked coin that goes through shifts each pair's latest balance by its share of the coin. */
  lemma TransferCoinEffect(t: Tables, ev: Event, sender: string, recipient: string, coin: Coin,
                           address: string, denom: string)
    requires Settled(t.balances, ev.height)
    requires TransferCoin(t, ev, sender, recipient, coin).failure.None?
    ensures var t' := TransferCoin(t, ev, sender, recipient, coin).tables;
      Settled(t'.balances, ev.height) &&
      Latest(t'.balances, address, denom) == Plus(Latest(t.balances, address, denom),
        if coin.denom != denom then 0
        else if address == recipient then coin.amount
        else if address == sender then -(coin.amount as int)
        else 0)
  {
    var b, h, d := t.balances, ev.height, coin.denom;
    var s, r := Latest(b, sender, d).value, Latest(b, recipient, d).value;
    var b1 := b[Key(h, sender, d) := s - coin.amount];
    var b2 := b1[Key(h, recipient, d) := r + coin.amount];
    assert TransferCoin(t, ev, sender, recipient, coin).tables.balances == b2;
    LatestAfterWrite(b, h, sender, d, s - coin.amount);
    LatestAfterWrite(b1, h, recipient, d, r + coin.amount);
    if (address, denom) == (recipient, d) {
      assert Latest(b2, address, denom) == Some(r + coin.amount);
    } else if (address, denom) == (sender, d) {
      LatestOfOtherPair(b1, h, recipient, d, r + coin.amount, address, denom);
      assert Latest(b2, address, denom) == Some(s - coin.amount);
    } else {
      LatestOfOtherPair(b1, h, recipient, d, r + coin.amount, address, denom);
      LatestOfOtherPair(b, h, sender, d, s - coin.amount, address, denom);
      assert Latest(b2, address, denom) == Latest(b, address, denom);
    }
  }

  /** Two successive frames compose into one over the union of what they may write. */
  lemma OnlyWritesChain(a: Rows, b: Rows, c: Rows, height: nat, addresses: set<string>,
                        d1: set<string>, d2: set<string>, denoms: set<string>)
    requires OnlyWrites(a, b, height, addresses, d1) && OnlyWrites(b, c, height, addresses, d2)
    requires d1 <= denoms && d2 <= denoms
    ensures OnlyWrites(a, c, height, addresses, denoms)
  {
  }

  /** One tracked coin writes only the parties' rows of its own denom at the event height, and only its record. */
  lemma TransferCoinFrame(t: Tables, ev: Event, sender: string, recipient: string, coin: Coin)
    ensures var t' := TransferCoin(t, ev, sender, recipient, coin).tables;
      OnlyWrites(t.balances, t'.balances, ev.height, {sender, recipient}, {coin.denom}) &&
      OnlyRecord(t.transfers, t'.transfers, RecordId(ev.txHash, ev.idx)) &&
      t'.mints == t.mints && t'.burns == t.burns
  {
    var b, h, d := t.balances, ev.height, coin.denom;
    var s, r := Latest(b, sender, d), Latest(b, recipient, d);
    var after := TransferCoin(t, ev, sender, recipient, coin).tables.balances;
    if s.None? {
      assert after == b;
    } else {
      var b1 := b[Key(h, sender, d) := s.value - coin.amount];
      assert OnlyWrites(b, b1, h, {sender, recipient}, {d});
      if r.None? {
        assert after == b1;
      } else {
        assert after == b1[Key(h, recipient, d) := r.value + coin.amount];
      }
    }
  }

  /**
   * Whatever the outcome, the transfer loop only writes rows at the event
   * height for the sender or the recipient and a tracked denom, only writes
   * the record under the event's id, and leaves mint and burn records alone.
   */
  lemma {:induction false} TransferCoinsFrame(t: Tables, ev: Event, sender: string, recipient: string,
                                              coins: seq<Coin>, tracked: string -> bool)
    ensures var t' := TransferCoins(t, ev, sender, recipient, coins, tracked).tables;
      OnlyWrites(t.balances, t'.balances, ev.height, {sender, recipient}, CoinDenoms(coins, tracked)) &&
      OnlyRecord(t.transfers, t'.transfers, RecordId(ev.txHash, ev.idx)) &&
      t'.mints == t.mints && t'.burns == t.burns
    decreases |coins|
  {
    if coins != [] {
      assert coins[0] in coins && forall c :: c in coins[1..] ==> c in coins;
      assert CoinDenoms(coins[1..], tracked) <= CoinDenoms(coins, tracked);
      if !tracked(coins[0].denom) {
        TransferCoinsFrame(t, ev, sender, recipient, coins[1..], tracked);
      } else {
        var step := TransferCoin(t, ev, sender, recipient, coins[0]);
        TransferCoinFrame(t, ev, sender, recipient, coins[0]);
        if step.failure.None? {
          var after := TransferCoins(step.tables, ev, sender, recipient, coins[1..], tracked).tables;
          TransferCoinsFrame(step.tables, ev, sender, recipient, coins[1..], tracked);
          OnlyWritesChain(t.balances, step.tables.balances, after.balances, ev.height, {sender, recipient},
                          {coins[0].denom}, CoinDenoms(coins[1..], tracked), CoinDenoms(coins, tracked));
        }
      }
    }
  }

  /** A transfer loop that does not throw shifts each pair's latest balance by `TransferNet`. */
  lemma {:induction false} TransferCoinsEffect(t: Tables, ev: Event, sender: string, recipient: string,
                                               coins: seq<Coin>, tracked: string -> bool, address: string, denom: string)
    requires Settled(t.balances, ev.height)
    requires TransferCoins(t, ev, sender, recipient, coins, tracked).failure.None?
    ensures var t' := TransferCoins(t, ev, sender, recipient, coins, tracked).tables;
      Settled(t'.balances, ev.height) &&
      Latest(t'.balances, address, denom)
        == Plus(Latest(t.balances, address, denom), TransferNet(sender, recipient, coins, tracked, address, denom))
    decreases |coins|
  {
    if coins == [] {
      assert TransferCoins(t, ev, sender, recipient, coins, tracked) == Run(t, None);
      assert TransferNet(sender, recipient, coins, tracked, address, denom) == 0;
      PlusZero(Latest(t.balances, address, denom));
    } else {
      var coin, rest := coins[0], coins[1..];
      var share := if tracked(coin.denom) && coin.denom == denom then coin.amount else 0;
      assert TrackedSum(coins, tracked, denom) == share + TrackedSum(rest, tracked, denom);
      if !tracked(coin.denom) {
        assert TransferCoins(t, ev, sender, recipient, coins, tracked)
            == TransferCoins(t, ev, sender, recipient, rest, tracked);
        assert TransferNet(sender, recipient, coins, tracked, address, denom)
            == TransferNet(sender, recipient, rest, tracked, address, denom);
        TransferCoinsEffect(t, ev, sender, recipient, rest, tracked, address, denom);
      } else {
        var step := TransferCoin(t, ev, sender, recipient, coin);
        assert step.failure.None?;
        assert TransferCoins(t, ev, sender, recipient, coins, tracked)
            == TransferCoins(step.tables, ev, sender, recipient, rest, tracked);
        TransferCoinEffect(t, ev, sender, recipient, coin, address, denom);
        TransferCoinsEffect(step.tables, ev, sender, recipient, rest, tracked, address, denom);
        var delta := if coin.denom != denom then 0
                     else if address == recipient then coin.amount
                     else if address == sender then -(coin.amount as int)
                     else 0;
        assert TransferNet(sender, recipient, coins, tracked, address, denom)
            == delta + TransferNet(sender, recipient, rest, tracked, address, denom);
        var after := TransferCoins(step.tables, ev, sender, recipient, rest, tracked).tables;
        PlusChain(Latest(t.balances, address, denom), Latest(step.tables.balances, address, denom),
                  Latest(after.balances, address, denom), delta,
                  TransferNet(sender, recipient, rest, tracked, address, denom),
                  TransferNet(sender, recipient, coins, tracked, address, denom));
      }
    }
  }

  /** Only tracked coins are processed: dropping the untracked ones first changes nothing. */
  lemma {:induction false} TransferSkipsUntracked(t: Tables, ev: Event, sender: string, recipient: string,
                                                  coins: seq<Coin>, tracked: string -> bool)
    ensures TransferCoins(t, ev, sender, recipient, coins, tracked)
         == TransferCoins(t, ev, sender, recipient, OnlyTracked(coins, tracked), tracked)
    decreases |coins|
  {
    if coins != [] {
      var filtered := OnlyTracked(coins[1..], tracked);
      if !tracked(coins[0].denom) {
        assert OnlyTracked(coins, tracked) == filtered;
        assert TransferCoins(t, ev, sender, recipient, coins, tracked)
            == TransferCoins(t, ev, sender, recipient, coins[1..], tracked);
        TransferSkipsUntracked(t, ev, sender, recipient, coins[1..], tracked);
      } else {
        var kept := [coins[0]] + filtered;
        assert OnlyTracked(coins, tracked) == kept;
        assert kept[0] == coins[0] && kept[1..] == filtered;
        var step := TransferCoin(t, ev, sender, recipient, coins[0]);
        if step.failure.None? {
          assert TransferCoins(t, ev, sender, recipient, kept, tracked)
              == TransferCoins(step.tables, ev, sender, recipient, filtered, tracked);
          TransferSkipsUntracked(step.tables, ev, sender, recipient, coins[1..], tracked);
        }
      }
    }
  }

  /** Net change of a whole transfer event (zero when it returns early). */
  function TransferEventNet(ev: Event, coins: seq<Coin>, tracked: string -> bool, address: string, denom: string): int {
    match TransferParties(ev)
    case None => 0
    case Some((sender, recipient)) => TransferNet(sender, recipient, coins, tracked, address, denom)
  }

  /** The addresses whose rows a transfer event may write. */
  function TransferAddresses(ev: Event): set<string> {
    match TransferParties(ev)
    case None => {}
    case Some((sender, recipient)) => {sender, recipient}
  }

  /** handleTransferEvent, on any outcome, writes only the sender's and the recipient's rows at its height. */
  lemma TransferEventFrame(t: Tables, ev: Event, coins: seq<Coin>, tracked: string -> bool)
    ensures OnlyWrites(t.balances, TransferEvent(t, ev, coins, tracked).tables.balances,
                       ev.height, TransferAddresses(ev), CoinDenoms(coins, tracked))
  {
    if TransferParties(ev).Some? && coins != [] {
      var (sender, recipient) := TransferParties(ev).value;
      TransferCoinsFrame(t, ev, sender, recipient, coins, tracked);
    }
  }

  /** handleTransferEvent, when it does not throw, shifts each latest balance by `TransferEventNet`. */
  lemma TransferEventEffect(t: Tables, ev: Event, coins: seq<Coin>, tracked: string -> bool,
                            address: string, denom: string)
    requires Settled(t.balances, ev.height)
    requires !TransferEvent(t, ev, coins, tracked).outcome.Threw?
    ensures var t' := TransferEvent(t, ev, coins, tracked).tables;
      Settled(t'.balances, ev.height) &&
      Latest(t'.balances, address, denom)
        == Plus(Latest(t.balances, address, denom), TransferEventNet(ev, coins, tracked, address, denom))
  {
    if TransferParties(ev).Some? && coins != [] {
      var (sender, recipient) := TransferParties(ev).value;
      TransferCoinsEffect(t, ev, sender, recipient, coins, tracked, address, denom);
    }
  }

  /**
   * Conservation: a completed transfer between two distinct addresses that
   * both hold a row, at a height no row exceeds, leaves the sum of their
   * latest balances of every denom unchanged.
   */
  lemma TransferConserves(t: Tables, ev: Event, coins: seq<Coin>, tracked: string -> bool,
                          sender: string, recipient: string, denom: string)
    requires Settled(t.balances, ev.height)
    requires TransferParties(ev) == Some((sender, recipient)) && sender != recipient
    requires TransferEvent(t, ev, coins, tracked).outcome == Completed
    requires Latest(t.balances, sender, denom).Some? && Latest(t.balances, recipient, denom).Some?
    ensures var t' := TransferEvent(t, ev, coins, tracked).tables;
      Latest(t'.balances, sender, denom).Some? && Latest(t'.balances, recipient, denom).Some? &&
      Latest(t'.balances, sender, denom).value + Latest(t'.balances, recipient, denom).value
        == Latest(t.balances, sender, denom).value + Latest(t.balances, recipient, denom).value
  {
    TransferEventEffect(t, ev, coins, tracked, sender, denom);
    TransferEventEffect(t, ev, coins, tracked, recipient, denom);
  }

  /** A transfer to oneself credits the address with the tracked amount instead of leaving it unchanged. */
  lemma SelfTransferCredits(t: Tables, ev: Event, coins: seq<Coin>, tracked: string -> bool,
                            address: string, denom: string)
    requires Settled(t.balances, ev.height)
    requires TransferParties(ev) == Some((address, address))
    requires !TransferEvent(t, ev, coins, tracked).outcome.Threw?
    ensures Latest(TransferEvent(t, ev, coins, tracked).tables.balances, address, denom)
         == Plus(Latest(t.balances, address, denom), TrackedSum(coins, tracked, denom))
  {
    TransferEventEffect(t, ev, coins, tracked, address, denom);
  }

  /** With only tracked coins, the loop leaves the record of the last coin, with amount 0, under the event's id. */
  lemma {:induction false} TransferRecordOfTrackedCoins(t: Tables, ev: Event, sender: string, recipient: string,
                                                        coins: seq<Coin>, tracked: string -> bool)
    requires coins != [] && forall c :: c in coins ==> tracked(c.denom)
    requires TransferCoins(t, ev, sender, recipient, coins, tracked).failure.None?
    ensures var records := TransferCoins(t, ev, sender, recipient, coins, tracked).tables.transfers;
      RecordId(ev.txHash, ev.idx) in records &&
      records[RecordId(ev.txHash, ev.idx)] == TransferRecord(ev.height, ev.txHash, 0, recipient, sender, coins[|coins| - 1].denom)
    decreases |coins|
  {
    assert coins[0] in coins;
    var step := TransferCoin(t, ev, sender, recipient, coins[0]);
    if |coins| > 1 {
      assert forall c :: c in coins[1..] ==> c in coins;
      TransferRecordOfTrackedCoins(step.tables, ev, sender, recipient, coins[1..], tracked);
    }
  }

  /**
   * The Transfer record: one per event id, overwritten by each tracked coin,
   * so a completed transfer leaves the record of its last tracked coin, whose
   * amount is always 0.
   */
  lemma TransferRecordOfLastCoin(t: Tables, ev: Event, sender: string, recipient: string,
                                 coins: seq<Coin>, tracked: string -> bool)
    requires OnlyTracked(coins, tracked) != []
    requires TransferCoins(t, ev, sender, recipient, coins, tracked).failure.None?
    ensures var last := OnlyTracked(coins, tracked)[|OnlyTracked(coins, tracked)| - 1];
      var records := TransferCoins(t, ev, sender, recipient, coins, tracked).tables.transfers;
      RecordId(ev.txHash, ev.idx) in records &&
      records[RecordId(ev.txHash, ev.idx)] == TransferRecord(ev.height, ev.txHash, 0, recipient, sender, last.denom)
  {
    TransferSkipsUntracked(t, ev, sender, recipient, coins, tracked);
    TransferRecordOfTrackedCoins(t, ev, sender, recipient, OnlyTracked(coins, tracked), tracked);
  }

  // -------------------------------------------------------------------- mint

  /** One tracked coin that goes through credits the recipient's latest balance of its denom. */
  lemma MintCoinEffect(t: Tables, ev: Event, recipient: string, coin: Coin, address: string, denom: string)
    requires Settled(t.balances, ev.height)
    requires MintCoin(t, ev, recipient, coin).failure.None?
    ensures var t' := MintCoin(t, ev, recipient, coin).tables;
      Settled(t'.balances, ev.height) &&
      Latest(t'.balances, address, denom) == Plus(Latest(t.balances, address, denom),
        if (address, denom) == (recipient, coin.denom) then coin.amount else 0)
  {
    var b, h, d := t.balances, ev.height, coin.denom;
    var r := Latest(b, recipient, d).value;
    var b1 := b[Key(h, recipient, d) := r + coin.amount];
    assert MintCoin(t, ev, recipient, coin).tables.balances == b1;
    LatestAfterWrite(b, h, recipient, d, r + coin.amount);
    if (address, denom) != (recipient, d) {
      LatestOfOtherPair(b, h, recipient, d, r + coin.amount, address, denom);
      PlusZero(Latest(b, address, denom));
    }
  }

  /**
   * Whatever the outcome, the mint loop only writes the recipient's rows at
   * the event height for tracked denoms, only writes the record under the
   * event's id, and leaves transfer and burn records alone.
   */
  lemma {:induction false} MintCoinsFrame(t: Tables, ev: Event, recipient: string, coins: seq<Coin>, tracked: string -> bool)
    ensures var t' := MintCoins(t, ev, recipient, coins, tracked).tables;
      OnlyWrites(t.balances, t'.balances, ev.height, {recipient}, CoinDenoms(coins, tracked)) &&
      OnlyRecord(t.mints, t'.mints, RecordId(ev.txHash, ev.idx)) &&
      t'.transfers == t.transfers && t'.burns == t.burns
    decreases |coins|
  {
    if coins != [] {
      assert coins[0] in coins && forall c :: c in coins[1..] ==> c in coins;
      assert CoinDenoms(coins[1..], tracked) <= CoinDenoms(coins, tracked);
      if !tracked(coins[0].denom) {
        MintCoinsFrame(t, ev, recipient, coins[1..], tracked);
      } else {
        var step := MintCoin(t, ev, recipient, coins[0]);
        if step.failure.None? {
          MintCoinsFrame(step.tables, ev, recipient, coins[1..], tracked);
        }
      }
    }
  }

  /** A mint loop that does not throw shifts each pair's latest balance by `MintNet`. */
  lemma {:induction false} MintCoinsEffect(t: Tables, ev: Event, recipient: string, coins: seq<Coin>,
                                           tracked: string -> bool, address: string, denom: string)
    requires Settled(t.balances, ev.height)
    requires MintCoins(t, ev, recipient, coins, tracked).failure.None?
    ensures var t' := MintCoins(t, ev, recipient, coins, tracked).tables;
      Settled(t'.balances, ev.height) &&
      Latest(t'.balances, address, denom)
        == Plus(Latest(t.balances, address, denom), MintNet(recipient, coins, tracked, address, denom))
    decreases |coins|
  {
    if coins == [] {
      assert MintCoins(t, ev, recipient, coins, tracked) == Run(t, None);
      assert MintNet(recipient, coins, tracked, address, denom) == 0;
      PlusZero(Latest(t.balances, address, denom));
    } else {
      var coin, rest := coins[0], coins[1..];
      var share := if tracked(coin.denom) && coin.denom == denom then coin.amount else 0;
      assert TrackedSum(coins, tracked, denom) == share + TrackedSum(rest, tracked, denom);
      if !tracked(coin.denom) {
        assert MintCoins(t, ev, recipient, coins, tracked) == MintCoins(t, ev, recipient, rest, tracked);
        assert MintNet(recipient, coins, tracked, address, denom) == MintNet(recipient, rest, tracked, address, denom);
        MintCoinsEffect(t, ev, recipient, rest, tracked, address, denom);
      } else {
        var step := MintCoin(t, ev, recipient, coin);
        assert step.failure.None?;
        assert MintCoins(t, ev, recipient, coins, tracked) == MintCoins(step.tables, ev, recipient, rest, tracked);
        MintCoinEffect(t, ev, recipient, coin, address, denom);
        MintCoinsEffect(step.tables, ev, recipient, rest, tracked, address, denom);
        var delta := if (address, denom) == (recipient, coin.denom) then coin.amount else 0;
        assert MintNet(recipient, coins, tracked, address, denom) == delta + MintNet(recipient, rest, tracked, address, denom);
        var after := MintCoins(step.tables, ev, recipient, rest, tracked).tables;
        PlusChain(Latest(t.balances, address, denom), Latest(step.tables.balances, address, denom),
                  Latest(after.balances, address, denom), delta,
                  MintNet(recipient, rest, tracked, address, denom),
                  MintNet(recipient, coins, tracked, address, denom));
      }
    }
  }

  /** Only tracked coins are processed: dropping the untracked ones first changes nothing. */
  lemma {:induction false} MintSkipsUntracked(t: Tables, ev: Event, recipient: string, coins: seq<Coin>, tracked: string -> bool)
    ensures MintCoins(t, ev, recipient, coins, tracked) == MintCoins(t, ev, recipient, OnlyTracked(coins, tracked), tracked)
    decreases |coins|
  {
    if coins != [] {
      var filtered := OnlyTracked(coins[1..], tracked);
      if !tracked(coins[0].denom) {
        assert OnlyTracked(coins, tracked) == filtered;
        assert MintCoins(t, ev, recipient, coins, tracked) == MintCoins(t, ev, recipient, coins[1..], tracked);
        MintSkipsUntracked(t, ev, recipient, coins[1..], tracked);
      } else {
        var kept := [coins[0]] + filtered;
        assert OnlyTracked(coins, tracked) == kept;
        assert kept[0] == coins[0] && kept[1..] == filtered;
        var step := MintCoin(t, ev, recipient, coins[0]);
        if step.failure.None? {
          assert MintCoins(t, ev, recipient, kept, tracked) == MintCoins(step.tables, ev, recipient, filtered, tracked);
          MintSkipsUntracked(step.tables, ev, recipient, coins[1..], tracked);
        }
      }
    }
  }

  /** Net change of a whole mint event (zero when it returns early). */
  function MintEventNet(ev: Event, coins: seq<Coin>, tracked: string -> bool, address: string, denom: string): int {
    match MintRecipient(ev)
    case None => 0
    case Some(recipient) => MintNet(recipient, coins, tracked, address, denom)
  }

  /** The addresses whose rows a mint event may write. */
  function MintAddresses(ev: Event): set<string> {
    match MintRecipient(ev)
    case None => {}
    case Some(recipient) => {recipient}
  }

  /** handleMintEvent, on any outcome, writes only the recipient's rows at its height. */
  lemma MintEventFrame(t: Tables, ev: Event, coins: seq<Coin>, tracked: string -> bool)
    ensures OnlyWrites(t.balances, MintEvent(t, ev, coins, tracked).tables.balances, ev.height, MintAddresses(ev), CoinDenoms(coins, tracked))
  {
    if MintRecipient(ev).Some? {
      MintCoinsFrame(t, ev, MintRecipient(ev).value, coins, tracked);
    }
  }

  /** handleMintEvent, when it does not throw, raises the recipient's latest balance by the tracked amount. */
  lemma MintEventEffect(t: Tables, ev: Event, coins: seq<Coin>, tracked: string -> bool, address: string, denom: string)
    requires Settled(t.balances, ev.height)
    requires !MintEvent(t, ev, coins, tracked).outcome.Threw?
    ensures var t' := MintEvent(t, ev, coins, tracked).tables;
      Settled(t'.balances, ev.height) &&
      Latest(t'.balances, address, denom)
        == Plus(Latest(t.balances, address, denom), MintEventNet(ev, coins, tracked, address, denom))
  {
    if MintRecipient(ev).Some? {
      MintCoinsEffect(t, ev, MintRecipient(ev).value, coins, tracked, address, denom);
    }
  }

  /** With only tracked coins, the loop leaves the record of the last coin, with its amount, under the event's id. */
  lemma {:induction false} MintRecordOfTrackedCoins(t: Tables, ev: Event, recipient: string, coins: seq<Coin>, tracked: string -> bool)
    requires coins != [] && forall c :: c in coins ==> tracked(c.denom)
    requires MintCoins(t, ev, recipient, coins, tracked).failure.None?
    ensures var records := MintCoins(t, ev, recipient, coins, tracked).tables.mints;
      RecordId(ev.txHash, ev.idx) in records &&
      records[RecordId(ev.txHash, ev.idx)]
        == MintRecord(ev.height, ev.txHash, coins[|coins| - 1].denom, coins[|coins| - 1].amount)
    decreases |coins|
  {
    assert coins[0] in coins;
    var step := MintCoin(t, ev, recipient, coins[0]);
    if |coins| > 1 {
      assert forall c :: c in coins[1..] ==> c in coins;
      MintRecordOfTrackedCoins(step.tables, ev, recipient, coins[1..], tracked);
    }
  }

  /**
   * The Mint record: one per event id, overwritten by each tracked coin, so a
   * completed mint leaves the record of its last tracked coin and its amount.
   */
  lemma MintRecordOfLastCoin(t: Tables, ev: Event, recipient: string, coins: seq<Coin>, tracked: string -> bool)
    requires OnlyTracked(coins, tracked) != []
    requires MintCoins(t, ev, recipient, coins, tracked).failure.None?
    ensures var last := OnlyTracked(coins, tracked)[|OnlyTracked(coins, tracked)| - 1];
      var records := MintCoins(t, ev, recipient, coins, tracked).tables.mints;
      RecordId(ev.txHash, ev.idx) in records &&
      records[RecordId(ev.txHash, ev.idx)] == MintRecord(ev.height, ev.txHash, last.denom, last.amount)
  {
    MintSkipsUntracked(t, ev, recipient, coins, tracked);
    MintRecordOfTrackedCoins(t, ev, recipient, OnlyTracked(coins, tracked), tracked);
  }

  // -------------------------------------------------------------------- burn

  /** One tracked coin that goes through debits the sender's latest balance of its denom. */
  lemma BurnCoinEffect(t: Tables, ev: Event, sender: string, coin: Coin, address: string, denom: string)
    requires Settled(t.balances, ev.height)
    requires BurnCoin(t, ev, sender, coin).failure.None?
    ensures var t' := BurnCoin(t, ev, sender, coin).tables;
      Settled(t'.balances, ev.height) &&
      Latest(t'.balances, address, denom) == Plus(Latest(t.balances, address, denom),
        if (address, denom) == (sender, coin.denom) then -(coin.amount as int) else 0)
  {
    var b, h, d := t.balances, ev.height, coin.denom;
    var s := Latest(b, sender, d).value;
    var b1 := b[Key(h, sender, d) := s - coin.amount];
    assert BurnCoin(t, ev, sender, coin).tables.balances == b1;
    LatestAfterWrite(b, h, sender, d, s - coin.amount);
    if (address, denom) != (sender, d) {
      LatestOfOtherPair(b, h, sender, d, s - coin.amount, address, denom);
      PlusZero(Latest(b, address, denom));
    }
  }

  /**
   * Whatever the outcome, the burn loop only writes the sender's rows at
   * the event height for tracked denoms, only writes the record under the
   * event's id, and leaves transfer and mint records alone.
   */
  lemma {:induction false} BurnCoinsFrame(t: Tables, ev: Event, sender: string, coins: seq<Coin>, tracked: string -> bool)
    ensures var t' := BurnCoins(t, ev, sender, coins, tracked).tables;
      OnlyWrites(t.balances, t'.balances, ev.height, {sender}, CoinDenoms(coins, tracked)) &&
      OnlyRecord(t.burns, t'.burns, RecordId(ev.txHash, ev.idx)) &&
      t'.transfers == t.transfers && t'.mints == t.mints
    decreases |coins|
  {
    if coins != [] {
      assert coins[0] in coins && forall c :: c in coins[1..] ==> c in coins;
      assert CoinDenoms(coins[1..], tracked) <= CoinDenoms(coins, tracked);
      if !tracked(coins[0].denom) {
        BurnCoinsFrame(t, ev, sender, coins[1..], tracked);
      } else {
        var step := BurnCoin(t, ev, sender, coins[0]);
        if step.failure.None? {
          BurnCoinsFrame(step.tables, ev, sender, coins[1..], tracked);
        }
      }
    }
  }

  /** A burn loop that does not throw shifts each pair's latest balance by `BurnNet`. */
  lemma {:induction false} BurnCoinsEffect(t: Tables, ev: Event, sender: string, coins: seq<Coin>,
                                           tracked: string -> bool, address: string, denom: string)
    requires Settled(t.balances, ev.height)
    requires BurnCoins(t, ev, sender, coins, tracked).failure.None?
    ensures var t' := BurnCoins(t, ev, sender, coins, tracked).tables;
      Settled(t'.balances, ev.height) &&
      Latest(t'.balances, address, denom)
        == Plus(Latest(t.balances, address, denom), BurnNet(sender, coins, tracked, address, denom))
    decreases |coins|
  {
    if coins == [] {
      assert BurnCoins(t, ev, sender, coins, tracked) == Run(t, None);
      assert BurnNet(sender, coins, tracked, address, denom) == 0;
      PlusZero(Latest(t.balances, address, denom));
    } else {
      var coin, rest := coins[0], coins[1..];
      var share := if tracked(coin.denom) && coin.denom == denom then coin.amount else 0;
      assert TrackedSum(coins, tracked, denom) == share + TrackedSum(rest, tracked, denom);
      if !tracked(coin.denom) {
        assert BurnCoins(t, ev, sender, coins, tracked) == BurnCoins(t, ev, sender, rest, tracked);
        assert BurnNet(sender, coins, tracked, address, denom) == BurnNet(sender, rest, tracked, address, denom);
        BurnCoinsEffect(t, ev, sender, rest, tracked, address, denom);
      } else {
        var step := BurnCoin(t, ev, sender, coin);
        assert step.failure.None?;
        assert BurnCoins(t, ev, sender, coins, tracked) == BurnCoins(step.tables, ev, sender, rest, tracked);
        BurnCoinEffect(t, ev, sender, coin, address, denom);
        BurnCoinsEffect(step.tables, ev, sender, rest, tracked, address, denom);
        var delta := if (address, denom) == (sender, coin.denom) then -(coin.amount as int) else 0;
        assert BurnNet(sender, coins, tracked, address, denom) == delta + BurnNet(sender, rest, tracked, address, denom);
        var after := BurnCoins(step.tables, ev, sender, rest, tracked).tables;
        PlusChain(Latest(t.balances, address, denom), Latest(step.tables.balances, address, denom),
                  Latest(after.balances, address, denom), delta,
                  BurnNet(sender, rest, tracked, address, denom),
                  BurnNet(sender, coins, tracked, address, denom));
      }
    }
  }

  /** Only tracked coins are processed: dropping the untracked ones first changes nothing. */
  lemma {:induction false} BurnSkipsUntracked(t: Tables, ev: Event, sender: string, coins: seq<Coin>, tracked: string -> bool)
    ensures BurnCoins(t, ev, sender, coins, tracked) == BurnCoins(t, ev, sender, OnlyTracked(coins, tracked), tracked)
    decreases |coins|
  {
    if coins != [] {
      var filtered := OnlyTracked(coins[1..], tracked);
      if !tracked(coins[0].denom) {
        assert OnlyTracked(coins, tracked) == filtered;
        assert BurnCoins(t, ev, sender, coins, tracked) == BurnCoins(t, ev, sender, coins[1..], tracked);
        BurnSkipsUntracked(t, ev, sender, coins[1..], tracked);
      } else {
        var kept := [coins[0]] + filtered;
        assert OnlyTracked(coins, tracked) == kept;
        assert kept[0] == coins[0] && kept[1..] == filtered;
        var step := BurnCoin(t, ev, sender, coins[0]);
        if step.failure.None? {
          assert BurnCoins(t, ev, sender, kept, tracked) == BurnCoins(step.tables, ev, sender, filtered, tracked);
          BurnSkipsUntracked(step.tables, ev, sender, coins[1..], tracked);
        }
      }
    }
  }

  /** Net change of a whole burn event (zero when it returns early). */
  function BurnEventNet(ev: Event, coins: seq<Coin>, tracked: string -> bool, address: string, denom: string): int {
    match BurnSender(ev)
    case None => 0
    case Some(sender) => BurnNet(sender, coins, tracked, address, denom)
  }

  /** The addresses whose rows a burn event may write. */
  function BurnAddresses(ev: Event): set<string> {
    match BurnSender(ev)
    case None => {}
    case Some(sender) => {sender}
  }

  /** handleBurnEvent, on any outcome, writes only the sender's rows at its height. */
  lemma BurnEventFrame(t: Tables, ev: Event, coins: seq<Coin>, tracked: string -> bool)
    ensures OnlyWrites(t.balances, BurnEvent(t, ev, coins, tracked).tables.balances, ev.height, BurnAddresses(ev), CoinDenoms(coins, tracked))
  {
    if BurnSender(ev).Some? {
      BurnCoinsFrame(t, ev, BurnSender(ev).value, coins, tracked);
    }
  }

  /** handleBurnEvent, when it does not throw, lowers the sender's latest balance by the tracked amount. */
  lemma BurnEventEffect(t: Tables, ev: Event, coins: seq<Coin>, tracked: string -> bool, address: string, denom: string)
    requires Settled(t.balances, ev.height)
    requires !BurnEvent(t, ev, coins, tracked).outcome.Threw?
    ensures var t' := BurnEvent(t, ev, coins, tracked).tables;
      Settled(t'.balances, ev.height) &&
      Latest(t'.balances, address, denom)
        == Plus(Latest(t.balances, address, denom), BurnEventNet(ev, coins, tracked, address, denom))
  {
    if BurnSender(ev).Some? {
      BurnCoinsEffect(t, ev, BurnSender(ev).value, coins, tracked, address, denom);
    }
  }

  /** With only tracked coins, the loop leaves the record of the last coin, with its amount, under the event's id. */
  lemma {:induction false} BurnRecordOfTrackedCoins(t: Tables, ev: Event, sender: string, coins: seq<Coin>, tracked: string -> bool)
    requires coins != [] && forall c :: c in coins ==> tracked(c.denom)
    requires BurnCoins(t, ev, sender, coins, tracked).failure.None?
    ensures var records := BurnCoins(t, ev, sender, coins, tracked).tables.burns;
      RecordId(ev.txHash, ev.idx) in records &&
      records[RecordId(ev.txHash, ev.idx)]
        == BurnRecord(ev.height, ev.txHash, coins[|coins| - 1].denom, coins[|coins| - 1].amount)
    decreases |coins|
  {
    assert coins[0] in coins;
    var step := BurnCoin(t, ev, sender, coins[0]);
    if |coins| > 1 {
      assert forall c :: c in coins[1..] ==> c in coins;
      BurnRecordOfTrackedCoins(step.tables, ev, sender, coins[1..], tracked);
    }
  }

  /**
   * The Burn record: one per event id, overwritten by each tracked coin, so a
   * completed burn leaves the record of its last tracked coin and its amount.
   */
  lemma BurnRecordOfLastCoin(t: Tables, ev: Event, sender: string, coins: seq<Coin>, tracked: string -> bool)
    requires OnlyTracked(coins, tracked) != []
    requires BurnCoins(t, ev, sender, coins, tracked).failure.None?
    ensures var last := OnlyTracked(coins, tracked)[|OnlyTracked(coins, tracked)| - 1];
      var records := BurnCoins(t, ev, sender, coins, tracked).tables.burns;
      RecordId(ev.txHash, ev.idx) in records &&
      records[RecordId(ev.txHash, ev.idx)] == BurnRecord(ev.height, ev.txHash, last.denom, last.amount)
  {
    BurnSkipsUntracked(t, ev, sender, coins, tracked);
    BurnRecordOfTrackedCoins(t, ev, sender, OnlyTracked(coins, tracked), tracked);
  }
}
