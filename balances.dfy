/**
 * The TokenBalance table and its "latest balance" query.
 *
 * Rows are stored under the id `${blockHeight}-${address}-${denom}`, so there
 * is at most one row per block height for an (address, denom) pair; the
 * handlers read the balance of a pair with `getByFields([address, denom],
 * { orderBy: "blockHeight", orderDirection: "DESC", limit: 1 })[0]`, i.e. the
 * row of greatest height.
 */
module Balances {
  import opened Optional

  /** Key of a TokenBalance row: the store id `height-address-denom` as a triple. */
  datatype Key = Key(height: nat, address: string, denom: string)

  /** The TokenBalance table: row key to balance (a JavaScript bigint). */
  type Rows = map<Key, int>

  /** The heights at which `(address, denom)` has a row. */
  function Heights(rows: Rows, address: string, denom: string): (hs: set<nat>)
    ensures forall h :: h in hs <==> Key(h, address, denom) in rows
  {
    var hs := set k | k in rows && k.address == address && k.denom == denom :: k.height;
    assert forall h :: Key(h, address, denom) in rows ==> h in hs by {
      forall h | Key(h, address, denom) in rows ensures h in hs {
        var k := Key(h, address, denom);
        assert k in rows && k.address == address && k.denom == denom;
      }
    }
    hs
  }

  /** The largest element of a non-empty finite set of heights. */
  ghost function Max(s: set<nat>): (m: nat)
    requires s != {}
    ensures m in s
    ensures forall x :: x in s ==> x <= m
  {
    var x :| x in s;
    if s == {x} then
      assert forall y :: y in s ==> y == x;
      x
    else
      var m := Max(s - {x});
      assert forall y :: y in s ==> y == x || y in s - {x};
      if x < m then m else x
  }

  /** `h` is the greatest height at which `(address, denom)` has a row. */
  ghost predicate IsTop(rows: Rows, address: string, denom: string, h: nat) {
    Key(h, address, denom) in rows &&
    forall g: nat :: Key(g, address, denom) in rows ==> g <= h
  }

  /**
   * The balance held by the row of greatest height for `(address, denom)`;
   * None is the `undefined` the query yields when the pair has no row.
   */
  ghost function Latest(rows: Rows, address: string, denom: string): (r: Option<int>)
    ensures r.None? <==> forall h :: Key(h, address, denom) !in rows
    ensures r.Some? ==> exists h :: IsTop(rows, address, denom, h) && rows[Key(h, address, denom)] == r.value
  {
    var hs := Heights(rows, address, denom);
    if hs == {} then None
    else
      var h := Max(hs);
      assert IsTop(rows, address, denom, h);
      Some(rows[Key(h, address, denom)])
  }

  /** The top row, whenever one is known, is the one the query returns. */
  lemma LatestAt(rows: Rows, address: string, denom: string, h: nat)
    requires IsTop(rows, address, denom, h)
    ensures Latest(rows, address, denom) == Some(rows[Key(h, address, denom)])
  {
    assert Latest(rows, address, denom).Some?;
    var g: nat :| IsTop(rows, address, denom, g) && rows[Key(g, address, denom)] == Latest(rows, address, denom).value;
    assert IsTop(rows, address, denom, g);
    assert Key(h, address, denom) in rows && Key(g, address, denom) in rows;
    assert g <= h && h <= g;
  }

  /** No row lies above `height`: the table as it is while blocks are indexed in increasing height order. */
  ghost predicate Settled(rows: Rows, height: nat) {
    forall k :: k in rows ==> k.height <= height
  }

  /** A present balance shifted by `delta`; an absent balance stays absent. */
  function Plus(balance: Option<int>, delta: int): Option<int> {
    match balance
    case None => None
    case Some(b) => Some(b + delta)
  }

  /**
   * Rows are never removed, and a row that is new or changed sits at `height`,
   * belongs to one of `addresses` and has one of `denoms`.
   */
  ghost predicate OnlyWrites(before: Rows, after: Rows, height: nat, addresses: set<string>, denoms: set<string>) {
    (forall k :: k in before ==> k in after) &&
    (forall k :: k in after ==>
       (k in before && after[k] == before[k]) ||
       (k.height == height && k.address in addresses && k.denom in denoms))
  }

  /**
   * Rows are never removed, and a row that is new or changed sits at
   * `height`: rows of other heights are kept as they were.
   */
  ghost predicate OnlyAtHeight(before: Rows, after: Rows, height: nat) {
    (forall k :: k in before ==> k in after) &&
    (forall k :: k in after ==> (k in before && after[k] == before[k]) || k.height == height)
  }

  /** A write at a height no lower than any existing row becomes the pair's latest balance. */
  lemma LatestAfterWrite(rows: Rows, height: nat, address: string, denom: string, value: int)
    requires Settled(rows, height)
    ensures Latest(rows[Key(height, address, denom) := value], address, denom) == Some(value)
    ensures Settled(rows[Key(height, address, denom) := value], height)
  {
    LatestAt(rows[Key(height, address, denom) := value], address, denom, height);
  }

  /** A write to one pair leaves the latest balance of every other pair as it was. */
  lemma LatestOfOtherPair(rows: Rows, height: nat, address: string, denom: string, value: int, a: string, d: string)
    requires (a, d) != (address, denom)
    ensures Latest(rows[Key(height, address, denom) := value], a, d) == Latest(rows, a, d)
  {
    var rows' := rows[Key(height, address, denom) := value];
    assert forall g: nat :: Key(g, a, d) in rows' <==> Key(g, a, d) in rows;
    if Latest(rows, a, d).Some? {
      var h: nat :| IsTop(rows, a, d, h) && rows[Key(h, a, d)] == Latest(rows, a, d).value;
      LatestAt(rows', a, d, h);
    }
  }

  /**
   * Nothing rejects a write below the pair's top row: such a write is stored
   * but the latest balance still comes from the higher row.
   */
  lemma LatestShadowedByLaterRow(rows: Rows, height: nat, address: string, denom: string, value: int, later: nat)
    requires height < later && Key(later, address, denom) in rows
    ensures Key(height, address, denom) in rows[Key(height, address, denom) := value]
    ensures Latest(rows[Key(height, address, denom) := value], address, denom) == Latest(rows, address, denom)
  {
    var rows' := rows[Key(height, address, denom) := value];
    assert Latest(rows, address, denom).Some?;
    var h: nat :| IsTop(rows, address, denom, h) && rows[Key(h, address, denom)] == Latest(rows, address, denom).value;
    assert later <= h;
    LatestAt(rows', address, denom, h);
  }
}
