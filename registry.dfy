/**
 * The tracked-token list (`TRACKED_DENOMS` in src/config.ts) and the test the
 * handlers apply to each coin's denom, `TRACKED_DENOMS.includes(denom)`.
 */
module Registry {
  /** The kinds of tracked token. */
  datatype TokenType = Principal | Yield | StakedYield | LP

  /** One entry of the tracked-token list. */
  datatype Token = Token(denom: string, kind: TokenType, multiplier: int, maturity: int)

  /** The minter contract address that prefixes every tracked denom. */
  const Minter := "neutron1txq2q76veh5j0yxv308vr4etej996vvmnsux08ltl03jmwa27cjseldg28"

  /** `TRACKED_DENOMS` as configured for the pion-1 testnet. */
  const TrackedTokens: seq<Token> := [
    Token("factory/" + Minter + "/P/240906/xyk/5m/wstETH/axlWETH", Principal, 1, 1725638534),
    Token("factory/" + Minter + "/Y/240906/xyk/5m/wstETH/axlWETH", Yield, 1, 1725638534),
    Token("staked-factory/" + Minter + "/Y/240906/xyk/5m/wstETH/axlWETH", StakedYield, 1, 1725638534),
    Token("factory/" + Minter + "/P/240913/xyk/5m/wstETH/axlWETH", Principal, 1, 1726243334),
    Token("factory/" + Minter + "/Y/240913/xyk/5m/wstETH/axlWETH", Yield, 1, 1726243334),
    Token("staked-factory/" + Minter + "/Y/240913/xyk/5m/wstETH/axlWETH", StakedYield, 1, 1726243334),
    Token("factory/" + Minter + "/P/241006/xyk/5m/wstETH/axlWETH", Principal, 1, 1728230534),
    Token("factory/" + Minter + "/Y/241006/xyk/5m/wstETH/axlWETH", Yield, 1, 1728230534),
    Token("staked-factory/" + Minter + "/Y/241006/xyk/5m/wstETH/axlWETH", StakedYield, 1, 1728230534)
  ]

  /** A JavaScript value as `Array.prototype.includes` compares it: a string or a Token object. */
  datatype JsValue = JsString(text: string) | JsObject(token: Token)

  /**
   * SameValueZero, the comparison `includes` uses: two strings are equal when
   * their contents are; a string never equals an object. Object identity is
   * approximated by equal contents.
   */
  predicate SameValueZero(x: JsValue, y: JsValue) {
    match (x, y)
    case (JsString(p), JsString(q)) => p == q
    case (JsObject(p), JsObject(q)) => p == q
    case _ => false
  }

  /** `xs.includes(x)`. */
  predicate Includes(xs: seq<JsValue>, x: JsValue) {
    exists i :: 0 <= i < |xs| && SameValueZero(xs[i], x)
  }

  /** The registry as the array of Token objects that `TRACKED_DENOMS` is. */
  function AsObjects(registry: seq<Token>): (xs: seq<JsValue>)
    ensures |xs| == |registry|
    ensures forall i :: 0 <= i < |xs| ==> xs[i] == JsObject(registry[i])
  {
    seq(|registry|, i requires 0 <= i < |registry| => JsObject(registry[i]))
  }

  /** The tracked test as written: `TRACKED_DENOMS.includes(denom)` with a string `denom`. */
  predicate TrackedAsWritten(registry: seq<Token>, denom: string) {
    Includes(AsObjects(registry), JsString(denom))
  }

  /** The tracked test as intended: some entry of the list has this denom. */
  predicate IsTracked(registry: seq<Token>, denom: string) {
    exists i :: 0 <= i < |registry| && registry[i].denom == denom
  }
}
