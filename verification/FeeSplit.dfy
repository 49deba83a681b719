/** Splitting a fee 10/20/30/40 (app/fee_deduct.go, lines 142-159): three parts by fixed-point
    rates with truncation, the rest to the last. */
module FeeSplit {
  import opened Outcomes
  import opened FixedPoint
  import opened Coins

  const RATE10: Dec := Dec(100_000_000_000_000_000)
  const RATE20: Dec := Dec(200_000_000_000_000_000)
  const RATE30: Dec := Dec(300_000_000_000_000_000)

  const MINIMUM: int := 10

  /** The parts in whole numbers: floors of a tenth, a fifth and three tenths, and the rest. */
  function Part(k: nat, f: int): int
    requires k < 4
  {
    if k == 0 then f / 10
    else if k == 1 then f / 5
    else if k == 2 then 3 * f / 10
    else f - f / 10 - f / 5 - 3 * f / 10
  }

  /** The fixed-point computation gives these floors. */
  lemma RatesAreFloors(f: nat)
    ensures RATE10.MulInt(f).TruncateInt() == f / 10
    ensures RATE20.MulInt(f).TruncateInt() == f / 5
    ensures RATE30.MulInt(f).TruncateInt() == 3 * f / 10
  {
  }

  /** The last part is at least four tenths, and more by at most 2.4, reached exactly at a final 9. */
  lemma LastPartBounds(f: nat)
    ensures 4 * f <= 10 * Part(3, f) <= 4 * f + 24
    ensures 10 * Part(3, f) == 4 * f + 24 <==> f % 10 == 9
  {
    var q, m := f / 10, f % 10;
    assert f == 10 * q + m;
    assert f / 5 == 2 * q + m / 5;
    assert 3 * f / 10 == 3 * q + 3 * m / 10;
  }

  lemma PartsAddUp(f: int)
    ensures Part(0, f) + Part(1, f) + Part(2, f) + Part(3, f) == f
  {
  }

  function ShareOf(k: nat, fee: seq<Coin>): seq<Coin>
    requires k < 4
  {
    seq(|fee|, i requires 0 <= i < |fee| => Coin(fee[i].denom, Part(k, fee[i].amount)))
  }

  datatype Shares = Shares(fee10: seq<Coin>, fee20: seq<Coin>, fee30: seq<Coin>, fee40: seq<Coin>)

  predicate LargeEnough(fee: seq<Coin>) {
    forall i :: 0 <= i < |fee| ==> fee[i].amount >= MINIMUM
  }

  /** Fills one slot of each list. */
  method SplitCoin(f: Coin, i: nat, fee10: array<Coin>, fee20: array<Coin>, fee30: array<Coin>, fee40: array<Coin>)
    requires f.amount >= 0
    requires i < fee10.Length && i < fee20.Length && i < fee30.Length && i < fee40.Length
    requires fee10 != fee20 && fee10 != fee30 && fee10 != fee40 && fee20 != fee30 && fee20 != fee40 && fee30 != fee40
    modifies fee10, fee20, fee30, fee40
    ensures fee10[..] == old(fee10[..])[i := Coin(f.denom, Part(0, f.amount))]
    ensures fee20[..] == old(fee20[..])[i := Coin(f.denom, Part(1, f.amount))]
    ensures fee30[..] == old(fee30[..])[i := Coin(f.denom, Part(2, f.amount))]
    ensures fee40[..] == old(fee40[..])[i := Coin(f.denom, Part(3, f.amount))]
  {
    RatesAreFloors(f.amount);
    fee10[i] := Coin(f.denom, RATE10.MulInt(f.amount).TruncateInt());
    fee20[i] := Coin(f.denom, RATE20.MulInt(f.amount).TruncateInt());
    fee30[i] := Coin(f.denom, RATE30.MulInt(f.amount).TruncateInt());
    fee40[i] := Coin(f.denom, f.amount - fee10[i].amount - fee20[i].amount - fee30[i].amount);
  }

  lemma NextSlot(k: nat, fee: seq<Coin>, i: nat, before: seq<Coin>, after: seq<Coin>)
    requires k < 4 && i < |fee| == |before|
    requires before[..i] == ShareOf(k, fee)[..i]
    requires after == before[i := Coin(fee[i].denom, Part(k, fee[i].amount))]
    ensures after[..i + 1] == ShareOf(k, fee)[..i + 1]
  {
  }

  method Split(fee: seq<Coin>) returns (r: Result<Shares>)
    ensures r.Ok? <==> forall i :: 0 <= i < |fee| ==> fee[i].amount >= 10
    ensures r.Ok? ==>
      && |r.value.fee10| == |r.value.fee20| == |r.value.fee30| == |r.value.fee40| == |fee|
      && forall i :: 0 <= i < |fee| ==> var f := fee[i].amount;
           && r.value.fee10[i] == Coin(fee[i].denom, f / 10) && r.value.fee20[i] == Coin(fee[i].denom, f / 5)
           && r.value.fee30[i] == Coin(fee[i].denom, 3 * f / 10)
           && r.value.fee40[i] == Coin(fee[i].denom, f - f / 10 - f / 5 - 3 * f / 10)
    ensures r.Ok? <==> LargeEnough(fee)
    ensures r.Ok? ==> r.value == Shares(ShareOf(0, fee), ShareOf(1, fee), ShareOf(2, fee), ShareOf(3, fee))
  {
    var n := |fee|;
    var fee10, fee20 := new Coin[n](_ => Coin("", 0)), new Coin[n](_ => Coin("", 0));
    var fee30, fee40 := new Coin[n](_ => Coin("", 0)), new Coin[n](_ => Coin("", 0));
    var i := 0;
    while i < n
      invariant 0 <= i <= n
      invariant forall j :: 0 <= j < i ==> fee[j].amount >= MINIMUM
      invariant fee10[..][..i] == ShareOf(0, fee)[..i]
      invariant fee20[..][..i] == ShareOf(1, fee)[..i]
      invariant fee30[..][..i] == ShareOf(2, fee)[..i]
      invariant fee40[..][..i] == ShareOf(3, fee)[..i]
    {
      if fee[i].amount < MINIMUM {
        return Err(InsufficientFee);
      }
      ghost var b10, b20, b30, b40 := fee10[..], fee20[..], fee30[..], fee40[..];
      SplitCoin(fee[i], i, fee10, fee20, fee30, fee40);
      NextSlot(0, fee, i, b10, fee10[..]);
      NextSlot(1, fee, i, b20, fee20[..]);
      NextSlot(2, fee, i, b30, fee30[..]);
      NextSlot(3, fee, i, b40, fee40[..]);
      i := i + 1;
    }
    return Ok(Shares(fee10[..][..n], fee20[..][..n], fee30[..][..n], fee40[..][..n]));
  }

  /** A share of a valid, large enough fee is itself valid, with the same denominations. */
  lemma ShareIsValid(k: nat, fee: seq<Coin>)
    requires k < 4 && ValidCoins(fee) && LargeEnough(fee)
    ensures ValidCoins(ShareOf(k, fee))
  {
  }

  /** Per denomination, a share is the part of the fee's amount. */
  lemma {:induction false} AmountOfShare(k: nat, fee: seq<Coin>, d: Denom)
    requires k < 4 && Distinct(fee)
    ensures AmountOf(ShareOf(k, fee), d) == Part(k, AmountOf(fee, d))
  {
    if exists i :: 0 <= i < |fee| && fee[i].denom == d {
      var i :| 0 <= i < |fee| && fee[i].denom == d;
      AmountOfEntry(fee, i);
      AmountOfEntry(ShareOf(k, fee), i);
    } else {
      AmountOfAbsent(fee, d);
      AmountOfAbsent(ShareOf(k, fee), d);
    }
  }
}
