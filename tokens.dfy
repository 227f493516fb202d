/** The decimals lookup both copies do when they resolve a symbol. */
module Tokens {
  /** Decimals of tokens whose contract has no `decimals()`. */
  const DecimalsOverride: map<string, int> := map["DGD" := 9]

  /**
   * `decimals[symbol] || <contract>.methods.decimals().call()`: the
   * override when it is there and not 0, else the token contract's answer.
   */
  function TokenDecimals(symbol: string, decimalsOf: string -> int): (d: int)
    ensures symbol == "DGD" ==> d == 9
    ensures symbol != "DGD" ==> d == decimalsOf(symbol)
  {
    if symbol in DecimalsOverride && DecimalsOverride[symbol] != 0 then DecimalsOverride[symbol]
    else decimalsOf(symbol)
  }
}
