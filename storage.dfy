/**
 * The indexer's entity store as the handlers see it: the TokenBalance table
 * written with `store.set`, the Transfer, Mint and Burn audit records written
 * with `.save()`, and the latest-balance query.
 */
module Storage {
  import opened Optional
  import opened Balances

  /** Id of an audit record, `${tx.hash}-${idx}`, as a pair. */
  datatype RecordId = RecordId(txHash: string, idx: nat)

  datatype TransferRecord = TransferRecord(
    blockHeight: nat, transactionHash: string, amount: int,
    recipient: string, sender: string, denom: string)

  datatype MintRecord = MintRecord(blockHeight: nat, transactionHash: string, denom: string, amount: int)

  datatype BurnRecord = BurnRecord(blockHeight: nat, transactionHash: string, denom: string, amount: int)

  /** The contents of the store at one moment. */
  datatype Tables = Tables(
    balances: Rows,
    transfers: map<RecordId, TransferRecord>,
    mints: map<RecordId, MintRecord>,
    burns: map<RecordId, BurnRecord>)

  /** Records are never removed, and only the record under `id` may be new or changed. */
  ghost predicate OnlyRecord<R>(before: map<RecordId, R>, after: map<RecordId, R>, id: RecordId) {
    (forall i :: i in before ==> i in after) &&
    (forall i :: i in after ==> i == id || (i in before && after[i] == before[i]))
  }

  class Store {
    var balances: Rows
    var transfers: map<RecordId, TransferRecord>
    var mints: map<RecordId, MintRecord>
    var burns: map<RecordId, BurnRecord>

    function Snapshot(): Tables
      reads this
    {
      Tables(balances, transfers, mints, burns)
    }

    constructor ()
      ensures Snapshot() == Tables(map[], map[], map[], map[])
    {
      balances, transfers, mints, burns := map[], map[], map[], map[];
    }

    /**
     * `TokenBalance.getByFields([address, denom], orderBy blockHeight DESC,
     * limit 1)[0]?.balance`: scans the table for the pair's row of greatest height.
     */
    method LatestBalance(address: string, denom: string) returns (r: Option<int>)
      ensures r == Latest(balances, address, denom)
    {
      var pending := balances.Keys;
      var best: Option<nat> := None;
      while pending != {}
        invariant pending <= balances.Keys
        invariant best.Some? ==> Key(best.value, address, denom) in balances
        invariant forall g: nat :: Key(g, address, denom) in balances && Key(g, address, denom) !in pending ==>
                    best.Some? && g <= best.value
        decreases pending
      {
        var k :| k in pending;
        if k.address == address && k.denom == denom && (best.None? || best.value < k.height) {
          best := Some(k.height);
        }
        pending := pending - {k};
      }
      if best.None? {
        r := None;
      } else {
        LatestAt(balances, address, denom, best.value);
        r := Some(balances[Key(best.value, address, denom)]);
      }
    }

    /** `store.set("TokenBalance", id, row)`: inserts or overwrites the row under `key`. */
    method SetBalance(key: Key, balance: int)
      modifies this
      ensures Snapshot() == old(Snapshot()).(balances := old(balances)[key := balance])
    {
      balances := balances[key := balance];
    }

    /** `Transfer.create({ id, ... }).save()`: inserts or overwrites the record under `id`. */
    method SaveTransfer(id: RecordId, record: TransferRecord)
      modifies this
      ensures Snapshot() == old(Snapshot()).(transfers := old(transfers)[id := record])
    {
      transfers := transfers[id := record];
    }

    /** `Mint.create({ id, ... }).save()`. */
    method SaveMint(id: RecordId, record: MintRecord)
      modifies this
      ensures Snapshot() == old(Snapshot()).(mints := old(mints)[id := record])
    {
      mints := mints[id := record];
    }

    /** `Burn.create({ id, ... }).save()`. */
    method SaveBurn(id: RecordId, record: BurnRecord)
      modifies this
      ensures Snapshot() == old(Snapshot()).(burns := old(burns)[id := record])
    {
      burns := burns[id := record];
    }
  }
}
