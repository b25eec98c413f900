/**
 * The tracked-denom test as written never holds, so the handlers ignore every
 * coin; with the intended test a coin of a listed denom is processed.
 */
module TrackedDenoms {
  import opened Optional
  import opened Balances
  import opened Storage
  import opened Handlers
  import opened HandlerProperties
  import opened Registry

  /** A string never equals a Token object, so the as-written test rejects every denom, even a listed one. */
  lemma {:induction false} TrackedAsWrittenNeverHolds(registry: seq<Token>, denom: string)
    ensures !TrackedAsWritten(registry, denom)
  {
    var xs := AsObjects(registry);
    forall i | 0 <= i < |xs| ensures !SameValueZero(xs[i], JsString(denom)) {
      assert xs[i] == JsObject(registry[i]);
    }
  }

  /**
   * Every denom of the configured list is tracked by the intended test and
   * rejected by the test as written.
   */
  lemma ConfiguredDenomsRejected()
    ensures |TrackedTokens| == 9
    ensures forall i :: 0 <= i < |TrackedTokens| ==>
      IsTracked(TrackedTokens, TrackedTokens[i].denom) && !TrackedAsWritten(TrackedTokens, TrackedTokens[i].denom)
  {
    forall i | 0 <= i < |TrackedTokens|
      ensures IsTracked(TrackedTokens, TrackedTokens[i].denom) && !TrackedAsWritten(TrackedTokens, TrackedTokens[i].denom)
    {
      TrackedAsWrittenNeverHolds(TrackedTokens, TrackedTokens[i].denom);
    }
  }

  /** No coin passes a test that rejects everything. */
  lemma {:induction false} NothingTracked(coins: seq<Coin>, tracked: string -> bool)
    requires forall d :: !tracked(d)
    ensures OnlyTracked(coins, tracked) == []
    decreases |coins|
  {
    if coins != [] {
      NothingTracked(coins[1..], tracked);
    }
  }

  /**
   * As written, handleMintEvent never throws and never changes the store:
   * every coin fails the tracked test.
   */
  lemma MintAsWrittenChangesNothing(t: Tables, ev: Event, coins: seq<Coin>, registry: seq<Token>)
    ensures var result := MintEvent(t, ev, coins, d => TrackedAsWritten(registry, d));
      result.tables == t && (result.outcome == Completed || result.outcome == MissingAttribute)
  {
    var tracked := d => TrackedAsWritten(registry, d);
    forall d ensures !tracked(d) {
      TrackedAsWrittenNeverHolds(registry, d);
    }
    if MintRecipient(ev).Some? {
      var recipient := MintRecipient(ev).value;
      NothingTracked(coins, tracked);
      MintSkipsUntracked(t, ev, recipient, coins, tracked);
      assert MintCoins(t, ev, recipient, [], tracked) == Run(t, None);
    }
  }

  /** As written, handleTransferEvent never throws and never changes the store. */
  lemma TransferAsWrittenChangesNothing(t: Tables, ev: Event, coins: seq<Coin>, registry: seq<Token>)
    ensures var result := TransferEvent(t, ev, coins, d => TrackedAsWritten(registry, d));
      result.tables == t && !result.outcome.Threw?
  {
    var tracked := d => TrackedAsWritten(registry, d);
    forall d ensures !tracked(d) {
      TrackedAsWrittenNeverHolds(registry, d);
    }
    if TransferParties(ev).Some? && coins != [] {
      var (sender, recipient) := TransferParties(ev).value;
      NothingTracked(coins, tracked);
      TransferSkipsUntracked(t, ev, sender, recipient, coins, tracked);
      assert TransferCoins(t, ev, sender, recipient, [], tracked) == Run(t, None);
    }
  }

  /** As written, handleBurnEvent never throws and never changes the store. */
  lemma BurnAsWrittenChangesNothing(t: Tables, ev: Event, coins: seq<Coin>, registry: seq<Token>)
    ensures var result := BurnEvent(t, ev, coins, d => TrackedAsWritten(registry, d));
      result.tables == t && (result.outcome == Completed || result.outcome == MissingAttribute)
  {
    var tracked := d => TrackedAsWritten(registry, d);
    forall d ensures !tracked(d) {
      TrackedAsWrittenNeverHolds(registry, d);
    }
    if BurnSender(ev).Some? {
      var sender := BurnSender(ev).value;
      NothingTracked(coins, tracked);
      BurnSkipsUntracked(t, ev, sender, coins, tracked);
      assert BurnCoins(t, ev, sender, [], tracked) == Run(t, None);
    }
  }

  /**
   * With the intended test, minting a coin of a listed denom to a recipient
   * that holds a row credits the recipient's latest balance by the amount.
   */
  lemma MintCreditsListedDenom(t: Tables, ev: Event, registry: seq<Token>, i: nat, amount: nat)
    requires i < |registry|
    requires Settled(t.balances, ev.height)
    requires MintRecipient(ev).Some?
    requires Latest(t.balances, MintRecipient(ev).value, registry[i].denom).Some?
    ensures var recipient, denom := MintRecipient(ev).value, registry[i].denom;
      var result := MintEvent(t, ev, [Coin(denom, amount)], d => IsTracked(registry, d));
      result.outcome == Completed &&
      Latest(result.tables.balances, recipient, denom) == Plus(Latest(t.balances, recipient, denom), amount)
  {
    var recipient, denom := MintRecipient(ev).value, registry[i].denom;
    var tracked := d => IsTracked(registry, d);
    var coins := [Coin(denom, amount)];
    assert tracked(denom);
    var step := MintCoin(t, ev, recipient, coins[0]);
    assert step.failure.None? && coins[1..] == [];
    assert MintCoins(t, ev, recipient, coins, tracked) == MintCoins(step.tables, ev, recipient, [], tracked);
    assert TrackedSum(coins, tracked, denom) == amount;
    MintEventEffect(t, ev, coins, tracked, recipient, denom);
  }
}
