/** Admission to the mempool and transaction priority (app/fee_deduct.go,
    `checkTxFeeWithValidatorMinGasPrices` and `getTxPriority`). */
module FeeChecker {
  import opened Outcomes
  import opened FixedPoint
  import opened Coins

  // Priority.

  function Saturated(q: int): int {
    if IsInt64(q) then q else MAX_INT64
  }

  /** Price per unit of gas, cut to 64 bits. */
  function GasPrice(amount: int, gas: int): int
    requires gas != 0
  {
    Saturated(TruncDiv(amount, gas))
  }

  /** For positive gas it is the whole quotient, or MaxInt64 if that is too large. */
  lemma GasPriceIsQuotient(amount: nat, gas: int)
    requires gas > 0
    ensures var p := GasPrice(amount, gas);
      0 <= p <= MAX_INT64 && p * gas <= amount && (p < MAX_INT64 ==> amount < (p + 1) * gas)
  {
    var q := amount / gas;
    assert q * gas <= amount < (q + 1) * gas;
    if q > MAX_INT64 {
      Smaller(MAX_INT64, q, gas);
    }
  }

  lemma Smaller(p: int, q: int, gas: int)
    requires p <= q && gas > 0
    ensures p * gas <= q * gas
  {
  }

  function Prices(fee: seq<Coin>, gas: int): seq<int>
    requires gas != 0
  {
    seq(|fee|, i requires 0 <= i < |fee| => GasPrice(fee[i].amount, gas))
  }

  /** The loop as a fold: a zero so far is replaced by whatever comes next. */
  function PriorityFold(prices: seq<int>): int {
    if prices == [] then 0
    else
      var priority, p := PriorityFold(prices[..|prices| - 1]), prices[|prices| - 1];
      if priority == 0 || p < priority then p else priority
  }

  method GetTxPriority(fee: seq<Coin>, gas: int) returns (r: Result<int>)
    ensures r.Err? <==> gas == 0 && fee != []
    ensures r.Ok? ==> r.value == if gas == 0 then 0 else PriorityFold(Prices(fee, gas))
  {
    if gas == 0 && fee != [] {
      return Err(Panic("division by zero"));
    }
    var priority := 0;
    var i := 0;
    while i < |fee|
      invariant 0 <= i <= |fee|
      invariant gas == 0 ==> priority == 0
      invariant gas != 0 ==> priority == PriorityFold(Prices(fee, gas)[..i])
    {
      var p := MAX_INT64;
      var gasPrice := TruncDiv(fee[i].amount, gas);
      if IsInt64(gasPrice) {
        p := gasPrice;
      }
      assert Prices(fee, gas)[..i + 1][..i] == Prices(fee, gas)[..i];
      if priority == 0 || p < priority {
        priority := p;
      }
      i := i + 1;
    }
    if gas != 0 {
      assert Prices(fee, gas)[..i] == Prices(fee, gas);
    }
    return Ok(priority);
  }

  /** Where the prices after the last zero begin. */
  function AfterLastZero(prices: seq<int>): (z: nat)
    ensures z <= |prices|
    ensures forall i :: z <= i < |prices| ==> prices[i] != 0
    ensures z > 0 ==> prices[z - 1] == 0
  {
    if prices == [] then 0
    else if prices[|prices| - 1] == 0 then |prices|
    else AfterLastZero(prices[..|prices| - 1])
  }

  /** The least of the prices from position `from` on. */
  ghost predicate IsMinimumFrom(p: int, prices: seq<int>, from: nat) {
    (exists i :: from <= i < |prices| && prices[i] == p) && forall i :: from <= i < |prices| ==> p <= prices[i]
  }

  /** The priority is the least price after the last zero price, and zero if there is none. */
  lemma {:induction false} PriorityIsMinAfterLastZero(prices: seq<int>)
    requires forall i :: 0 <= i < |prices| ==> prices[i] >= 0
    ensures var z := AfterLastZero(prices);
      if z == |prices| then PriorityFold(prices) == 0 else IsMinimumFrom(PriorityFold(prices), prices, z)
  {
    if prices != [] {
      var init, last := prices[..|prices| - 1], prices[|prices| - 1];
      var z := AfterLastZero(init);
      PriorityIsMinAfterLastZero(init);
      if last == 0 {
        assert PriorityFold(init) >= 0;
      } else if z == |init| {
        assert prices[|init|] == PriorityFold(prices);
      } else {
        MinimumOfOneMore(init, last, z, PriorityFold(init));
        assert init + [last] == prices;
      }
    }
  }

  lemma MinimumOfOneMore(prices: seq<int>, last: int, from: nat, p: int)
    requires IsMinimumFrom(p, prices, from)
    ensures IsMinimumFrom(if last < p then last else p, prices + [last], from)
  {
    var i :| from <= i < |prices| && prices[i] == p;
    assert (prices + [last])[i] == p && (prices + [last])[|prices|] == last;
  }

  lemma PricesOfRealGas(fee: seq<Coin>, gas: int, i: nat)
    requires 0 < gas && i < |fee| && fee[i].amount >= 0
    ensures 0 <= Prices(fee, gas)[i] <= MAX_INT64
    ensures Prices(fee, gas)[i] == 0 <==> fee[i].amount < gas
  {
  }

  /** For gas within 63 bits and no negative amount the priority is within 0..MaxInt64; it is zero
      exactly when the fee is empty or its last coin is worth less than one unit per gas; and when
      every coin is worth at least one, it is the least gas price of all. */
  lemma PriorityOfRealGas(fee: seq<Coin>, gas: int)
    requires 0 < gas <= MAX_INT64
    requires forall i :: 0 <= i < |fee| ==> fee[i].amount >= 0
    ensures var prices := Prices(fee, gas);
      && 0 <= PriorityFold(prices) <= MAX_INT64
      && (PriorityFold(prices) == 0 <==> fee == [] || fee[|fee| - 1].amount < gas)
      && (fee != [] && (forall i :: 0 <= i < |fee| ==> fee[i].amount >= gas) ==>
            IsMinimumFrom(PriorityFold(prices), prices, 0))
  {
    var prices := Prices(fee, gas);
    forall i | 0 <= i < |fee|
      ensures 0 <= prices[i] <= MAX_INT64 && (prices[i] == 0 <==> fee[i].amount < gas)
    {
      PricesOfRealGas(fee, gas, i);
    }
    PriorityIsMinAfterLastZero(prices);
    if fee != [] {
      assert AfterLastZero(prices) == |prices| <==> prices[|prices| - 1] == 0;
    }
  }

  /** The priority is the least of all gas prices exactly when every coin is worth at least one unit
      per gas, or the last one is not. */
  lemma OverallMinimumExactlyWhen(fee: seq<Coin>, gas: int)
    requires 0 < gas <= MAX_INT64 && fee != []
    requires forall i :: 0 <= i < |fee| ==> fee[i].amount >= 0
    ensures IsMinimumFrom(PriorityFold(Prices(fee, gas)), Prices(fee, gas), 0) <==>
      (forall i :: 0 <= i < |fee| ==> fee[i].amount >= gas) || fee[|fee| - 1].amount < gas
  {
    var prices := Prices(fee, gas);
    PriorityOfRealGas(fee, gas);
    forall i | 0 <= i < |fee| ensures prices[i] >= 0 && (prices[i] == 0 <==> fee[i].amount < gas) {
      PricesOfRealGas(fee, gas, i);
    }
    if fee[|fee| - 1].amount < gas {
      assert prices[|fee| - 1] == PriorityFold(prices);
    }
  }

  /** A worthless coin before a dear one: the price 0 is forgotten. */
  lemma ZeroPriceForgotten()
    ensures var prices := Prices([Coin("atom", 5), Coin("umec", 100)], 10);
      prices == [0, 10] && PriorityFold(prices) == 10 && !IsMinimumFrom(10, prices, 0)
  {
    var prices := Prices([Coin("atom", 5), Coin("umec", 100)], 10);
    assert prices == [0, 10] && prices[..1] == [0] && prices[..1][..0] == [];
    assert PriorityFold(prices[..1]) == 0;
  }

  // Gas from 2^63 on is converted to a negative number.

  lemma {:induction false} FoldNegativeExactlyWhen(prices: seq<int>)
    ensures PriorityFold(prices) < 0 <==> exists i :: 0 <= i < |prices| && prices[i] < 0
  {
    if prices != [] {
      var init, last := prices[..|prices| - 1], |prices| - 1;
      FoldNegativeExactlyWhen(init);
      assert forall i :: 0 <= i < last ==> init[i] == prices[i];
    }
  }

  lemma WrappedPrice(amount: nat, h: int)
    requires h > 0
    ensures GasPrice(amount, -h) == Saturated(-(amount / h))
    ensures GasPrice(amount, -h) < 0 <==> h <= amount && amount / h <= MAX_INT64 + 1
  {
    var q := amount / h;
    assert amount == q * h + amount % h == (-q) * (-h) + amount % h;
    assert amount / (-h) == -q;
    assert q >= 1 <==> h <= amount;
  }

  /** For every gas that wraps, the priority is negative exactly when some coin is worth at least
      one unit per unit of the wrapped gas, and not so much that its price is cut to MaxInt64. */
  lemma WrappedGasNegativeExactlyWhen(fee: seq<Coin>, gas: Uint64)
    requires gas > MAX_INT64
    requires forall i :: 0 <= i < |fee| ==> fee[i].amount >= 0
    ensures var h := -ToInt64(gas);
      h > 0 &&
      (PriorityFold(Prices(fee, -h)) < 0 <==>
        exists i :: 0 <= i < |fee| && h <= fee[i].amount && fee[i].amount / h <= MAX_INT64 + 1)
  {
    var h := -ToInt64(gas);
    var prices := Prices(fee, -h);
    FoldNegativeExactlyWhen(prices);
    forall i | 0 <= i < |fee|
      ensures prices[i] < 0 <==> h <= fee[i].amount && fee[i].amount / h <= MAX_INT64 + 1
    {
      WrappedPrice(fee[i].amount, h);
    }
  }

  /** The largest gas wraps to -1, and a fee of 10 then has priority -10. */
  lemma WrappedGasGivesNegativePriority()
    ensures ToInt64(0xffff_ffff_ffff_ffff) == -1
    ensures PriorityFold(Prices([Coin("umec", 10)], ToInt64(0xffff_ffff_ffff_ffff))) == -10
  {
  }

  // Admission.

  /** Validator's gas prices as the node's configuration yields them: sorted, not negative. */
  predicate ValidPrices(prices: seq<DecCoin>) {
    && (forall i :: 0 < i < |prices| ==> Less(prices[i - 1].denom, prices[i].denom))
    && (forall i :: 0 <= i < |prices| ==> prices[i].amount.raw >= 0)
  }

  predicate NoPrice(prices: seq<DecCoin>) {
    forall i :: 0 <= i < |prices| ==> prices[i].amount.raw == 0
  }

  function RequiredFee(price: DecCoin, gas: int): Coin {
    Coin(price.denom, price.amount.Mul(NewDec(gas)).Ceil().RoundInt())
  }

  /** The required fee is the least integer at or above the exact product. */
  lemma RequiredFeeIsLeast(price: DecCoin, gas: int)
    ensures var r := RequiredFee(price, gas).amount;
      (r - 1) * PRECISION < price.amount.raw * gas <= r * PRECISION
  {
    MulByWholeIsExact(price.amount, gas);
    CeilIsLeastUpperInteger(price.amount.Mul(NewDec(gas)));
  }

  /** Some coin is worth at least the positive exact price of the gas in its denomination. */
  predicate Admitted(fee: seq<Coin>, prices: seq<DecCoin>, gas: int) {
    exists i, j :: 0 <= i < |fee| && 0 <= j < |prices| &&
      fee[i].denom == prices[j].denom && 0 < prices[j].amount.raw * gas <= fee[i].amount * PRECISION
  }

  lemma ThresholdIsExact(price: DecCoin, gas: int, amount: int)
    ensures var t := RequiredFee(price, gas).amount;
      t >= 0 ==> (amount >= t && t != 0 <==> 0 < price.amount.raw * gas <= amount * PRECISION)
  {
    RequiredFeeIsLeast(price, gas);
  }

  /** The list of required fees says exactly that. */
  lemma AnyGTEIsAdmitted(fee: seq<Coin>, prices: seq<DecCoin>, gas: int, required: seq<Coin>)
    requires ValidPrices(prices) && |required| == |prices|
    requires forall j :: 0 <= j < |prices| ==> required[j] == RequiredFee(prices[j], gas) && required[j].amount >= 0
    ensures IsAnyGTE(fee, required) <==> Admitted(fee, prices, gas)
  {
    assert Sorted(required);
    SortedIsDistinct(required);
    if IsAnyGTE(fee, required) {
      var i :| 0 <= i < |fee| && var t := AmountOf(required, fee[i].denom); fee[i].amount >= t && t != 0;
      var j := EntryOf(required, fee[i].denom);
      AmountOfEntry(required, j);
      ThresholdIsExact(prices[j], gas, fee[i].amount);
    }
    if Admitted(fee, prices, gas) {
      var i, j :| 0 <= i < |fee| && 0 <= j < |prices| &&
        fee[i].denom == prices[j].denom && 0 < prices[j].amount.raw * gas <= fee[i].amount * PRECISION;
      ThresholdIsExact(prices[j], gas, fee[i].amount);
      AmountOfEntry(required, j);
      assert AmountOf(required, fee[i].denom) == required[j].amount;
    }
  }

  /** Computes the thresholds slot by slot. A negative product makes `NewCoin` panic. */
  method RequiredFees(prices: seq<DecCoin>, gas: int) returns (r: Result<seq<Coin>>)
    ensures r.Ok? <==> forall j :: 0 <= j < |prices| ==> RequiredFee(prices[j], gas).amount >= 0
    ensures r.Ok? ==> |r.value| == |prices| && forall j :: 0 <= j < |prices| ==> r.value[j] == RequiredFee(prices[j], gas)
  {
    var required := new Coin[|prices|](_ => Coin("", 0));
    var gasDec := NewDec(gas);
    var i := 0;
    while i < |prices|
      invariant 0 <= i <= |prices|
      invariant forall j :: 0 <= j < i ==> required[j] == RequiredFee(prices[j], gas) && required[j].amount >= 0
    {
      var fee := prices[i].amount.Mul(gasDec);
      var amount := fee.Ceil().RoundInt();
      if amount < 0 {
        assert RequiredFee(prices[i], gas).amount < 0;
        return Err(Panic("negative coin amount"));
      }
      required[i] := Coin(prices[i].denom, amount);
      i := i + 1;
    }
    return Ok(required[..]);
  }

  /** What `checkTxFeeWithValidatorMinGasPrices` accepts. Zero gas with a non-empty fee fails in the
      division; gas that wraps to a negative number never meets a threshold. */
  predicate FeeAccepted(fee: seq<Coin>, gas: Uint64, checkTx: bool, minPrices: seq<DecCoin>) {
    && (checkTx && !NoPrice(minPrices) ==> Admitted(fee, minPrices, ToInt64(gas)))
    && (gas == 0 ==> fee == [])
  }

  method CheckTxFee(fee: seq<Coin>, gas: Uint64, checkTx: bool, minPrices: seq<DecCoin>) returns (r: Result<int>)
    requires ValidPrices(minPrices)
    ensures r.Ok? <==> FeeAccepted(fee, gas, checkTx, minPrices)
    ensures (checkTx && exists k :: 0 <= k < |minPrices| && minPrices[k].amount.raw != 0) ==>
      (r.Ok? <==>
        && (gas != 0 || fee == [])
        && exists i, j :: 0 <= i < |fee| && 0 <= j < |minPrices| && fee[i].denom == minPrices[j].denom &&
             0 < minPrices[j].amount.raw * ToInt64(gas) <= fee[i].amount * PRECISION)
    ensures (!checkTx || forall k :: 0 <= k < |minPrices| ==> minPrices[k].amount.raw == 0) ==>
      (r.Ok? <==> gas != 0 || fee == [])
    ensures r.Ok? ==> r.value == if gas == 0 then 0 else PriorityFold(Prices(fee, ToInt64(gas)))
  {
    if checkTx && !NoPrice(minPrices) {
      var required := RequiredFees(minPrices, ToInt64(gas));
      if required.Err? {
        NegativeIsNotAdmitted(fee, minPrices, ToInt64(gas));
        return Err(required.error);
      }
      AnyGTEIsAdmitted(fee, minPrices, ToInt64(gas), required.value);
      if !IsAnyGTE(fee, required.value) {
        return Err(InsufficientFee);
      }
    }
    r := GetTxPriority(fee, ToInt64(gas));
  }

  lemma NegativeIsNotAdmitted(fee: seq<Coin>, prices: seq<DecCoin>, gas: int)
    requires ValidPrices(prices)
    requires exists j :: 0 <= j < |prices| && RequiredFee(prices[j], gas).amount < 0
    ensures !Admitted(fee, prices, gas)
  {
    var j :| 0 <= j < |prices| && RequiredFee(prices[j], gas).amount < 0;
    RequiredFeeIsLeast(prices[j], gas);
    SignOfProduct(prices[j].amount.raw, gas);
    forall k | 0 <= k < |prices| ensures prices[k].amount.raw * gas <= 0 {
      SignOfProduct(prices[k].amount.raw, gas);
    }
  }

  lemma SignOfProduct(x: int, y: int)
    requires x >= 0
    ensures y >= 0 ==> x * y >= 0
    ensures y <= 0 ==> x * y <= 0
  {
  }

  /** Raising amounts, or adding coins, never loses admission. */
  lemma AdmissionMonotoneInFee(fee: seq<Coin>, more: seq<Coin>, prices: seq<DecCoin>, gas: int)
    requires Admitted(fee, prices, gas)
    requires forall i :: 0 <= i < |fee| ==>
      exists k :: 0 <= k < |more| && more[k].denom == fee[i].denom && more[k].amount >= fee[i].amount
    ensures Admitted(more, prices, gas)
  {
  }

  /** Asking for less gas never loses admission. */
  lemma AdmissionAntitoneInGas(fee: seq<Coin>, prices: seq<DecCoin>, gas: int, less: int)
    requires ValidPrices(prices) && 0 < less <= gas
    requires Admitted(fee, prices, gas)
    ensures Admitted(fee, prices, less)
  {
  }
}
