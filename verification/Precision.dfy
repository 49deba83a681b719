/** The upgrade raises the precision of the base denomination by two digits (app/upgrade_v47.go,
    line 34): balances, tokens, shares and stakes all grow by this factor. */
module Precision {
  const MULTIPLIER: int := 100
}
