/**
 * The string id under which a TokenBalance row is stored,
 * `${blockHeight.toString()}-${address}-${denom}`, and when it determines the
 * (height, address, denom) triple the rest of the model keys rows by.
 */
module RowIds {
  import opened Balances

  /** The decimal digit for `d`. */
  function Digit(d: nat): (c: char)
    requires d < 10
    ensures '0' <= c <= '9'
  {
    "0123456789"[d]
  }

  /** `n.toString()` for a bigint `n >= 0`: its decimal digits, most significant first. */
  function Decimal(n: nat): (s: string)
    ensures |s| >= 1
    ensures n >= 10 ==> |s| >= 2
    ensures forall i :: 0 <= i < |s| ==> '0' <= s[i] <= '9'
    ensures forall i :: 0 <= i < |s| ==> s[i] != '-'
  {
    if n < 10 then [Digit(n)] else Decimal(n / 10) + [Digit(n % 10)]
  }

  /** The row id of a key. */
  function RowId(k: Key): string {
    Decimal(k.height) + "-" + k.address + "-" + k.denom
  }

  lemma DigitInjective(d: nat, e: nat)
    requires d < 10 && e < 10 && Digit(d) == Digit(e)
    ensures d == e
  {
  }

  /** Distinct heights have distinct decimal renderings. */
  lemma {:induction false} DecimalInjective(n: nat, m: nat)
    requires Decimal(n) == Decimal(m)
    ensures n == m
  {
    var s := Decimal(n);
    if n >= 10 && m >= 10 {
      assert s[|s| - 1] == Digit(n % 10) && s[|s| - 1] == Digit(m % 10);
      DigitInjective(n % 10, m % 10);
      assert Decimal(n / 10) == s[..|s| - 1] == Decimal(m / 10);
      DecimalInjective(n / 10, m / 10);
    } else if n < 10 && m < 10 {
      DigitInjective(n, m);
    }
  }

  lemma CharOfPrefix(x: string, rest: string, i: nat)
    requires i < |x|
    ensures (x + rest)[i] == x[i]
  {
  }

  lemma DashAfter(x: string, r: string)
    ensures (x + "-" + r)[|x|] == '-'
  {
  }

  /** Two strings that both start with a dash-free part and a dash split at the same place. */
  lemma SplitAtFirstDash(x: string, r: string, y: string, q: string)
    requires forall i :: 0 <= i < |x| ==> x[i] != '-'
    requires forall i :: 0 <= i < |y| ==> y[i] != '-'
    requires x + "-" + r == y + "-" + q
    ensures x == y && r == q
  {
    var s := x + "-" + r;
    assert |x| == |y| by {
      if |x| < |y| {
        CharOfPrefix(y, "-" + q, |x|);
        DashAfter(x, r);
        assert false;
      } else if |y| < |x| {
        CharOfPrefix(x, "-" + r, |y|);
        DashAfter(y, q);
        assert false;
      }
    }
    assert x == s[..|x|] && y == (y + "-" + q)[..|y|];
    assert r == s[|x| + 1..] && q == (y + "-" + q)[|y| + 1..];
  }

  /** With dash-free addresses, equal row ids mean equal keys: the triple key loses nothing. */
  lemma RowIdInjective(k: Key, l: Key)
    requires forall i :: 0 <= i < |k.address| ==> k.address[i] != '-'
    requires forall i :: 0 <= i < |l.address| ==> l.address[i] != '-'
    requires RowId(k) == RowId(l)
    ensures k == l
  {
    var dk, dl := Decimal(k.height), Decimal(l.height);
    assert RowId(k) == dk + "-" + (k.address + "-" + k.denom);
    assert RowId(l) == dl + "-" + (l.address + "-" + l.denom);
    SplitAtFirstDash(dk, k.address + "-" + k.denom, dl, l.address + "-" + l.denom);
    DecimalInjective(k.height, l.height);
    SplitAtFirstDash(k.address, k.denom, l.address, l.denom);
  }

  /** An address containing a dash lets two different keys share one row id. */
  lemma DashedAddressCollides()
    ensures Key(1, "a-b", "c") != Key(1, "a", "b-c")
    ensures RowId(Key(1, "a-b", "c")) == RowId(Key(1, "a", "b-c"))
  {
    assert Decimal(1) == "1";
  }
}
