/** Fixed-point fee arithmetic.

    A market's fee rates are fractions scaled by 10^18 (one ether in wei). The
    fee charged on a sale at price P with rate F is P * F / 10^18, where the
    division is BigInt division, which truncates toward zero.
 */
module Fees {

  /** The denominator of every fee rate: 10^18. */
  const WEI_PER_ETHER: int := 1_000_000_000_000_000_000

  /** BigInt division: the exact quotient truncated toward zero (not Dafny's Euclidean `/`). */
  function TruncDiv(a: int, d: int): (q: int)
    requires d > 0
    ensures a >= 0 ==> 0 <= q && q * d <= a < q * d + d
    ensures a < 0 ==> q <= 0 && q * d - d < a <= q * d
  {
    if a >= 0 then
      DivBounds(a, d);
      a / d
    else
      DivBounds(-a, d);
      var q := (-a) / d;
      assert (-q) * d == -(q * d);
      -q
  }

  /** Euclidean division of a non-negative dividend, bounded by the divisor. */
  lemma DivBounds(a: int, d: int)
    requires a >= 0 && d > 0
    ensures 0 <= a / d && (a / d) * d <= a < (a / d) * d + d
  {
    assert a == d * (a / d) + a % d;
  }

  /** Truncation is symmetric around zero: negating the dividend negates the quotient. */
  lemma TruncDivNegate(a: int, d: int)
    requires d > 0
    ensures TruncDiv(-a, d) == -TruncDiv(a, d)
  {
    if a > 0 {
      assert -a < 0;
    } else if a < 0 {
      assert -(-a) == a;
    }
  }

  /** The fee on `price` at the fixed-point `rate`. */
  function ScaledFee(price: int, rate: int): (fee: int)
    ensures 0 <= price * rate < WEI_PER_ETHER ==> fee == 0
    ensures price >= 0 && rate >= 0 ==> fee >= 0
  {
    TruncDiv(price * rate, WEI_PER_ETHER)
  }

  /** For a non-negative product, the fee is the floor of price * rate / 10^18, and the
      floor is the only integer with that property. */
  lemma ScaledFeeIsFloor(price: int, rate: int, q: int)
    requires price * rate >= 0
    ensures ScaledFee(price, rate) * WEI_PER_ETHER <= price * rate < (ScaledFee(price, rate) + 1) * WEI_PER_ETHER
    ensures q * WEI_PER_ETHER <= price * rate < (q + 1) * WEI_PER_ETHER <==> q == ScaledFee(price, rate)
  {
    var f := ScaledFee(price, rate);
    var p := price * rate;
    assert f * WEI_PER_ETHER <= p < f * WEI_PER_ETHER + WEI_PER_ETHER;
    if q * WEI_PER_ETHER <= p < (q + 1) * WEI_PER_ETHER {
      if q < f {
        MulMonotone(q + 1, f, WEI_PER_ETHER);
        assert false;
      } else if q > f {
        MulMonotone(f + 1, q, WEI_PER_ETHER);
        assert false;
      }
    }
  }

  /** A rate of at most 10^18 (at most 100%) never charges more than the price. */
  lemma ScaledFeeAtMostPrice(price: int, rate: int)
    requires price >= 0 && 0 <= rate <= WEI_PER_ETHER
    ensures 0 <= ScaledFee(price, rate) <= price
  {
    var f := ScaledFee(price, rate);
    MulMonotone(rate, WEI_PER_ETHER, price);
    assert f * WEI_PER_ETHER <= price * rate <= price * WEI_PER_ETHER;
    if f > price {
      MulMonotone(price + 1, f, WEI_PER_ETHER);
      assert false;
    }
  }

  lemma MulMonotone(a: int, b: int, c: int)
    requires a <= b && c >= 0
    ensures a * c <= b * c
  {
  }

  /** The three fee components charged on one sale. */
  datatype FeeBreakdown = FeeBreakdown(fee: int, creatorFee: int, reflectionFee: int)

  /** The breakdown on `price` for the market rates `fee`, `creatorFee` and `reflectionFee`. */
  function Charge(price: int, fee: int, creatorFee: int, reflectionFee: int): (b: FeeBreakdown)
    ensures price >= 0 && fee >= 0 && creatorFee >= 0 && reflectionFee >= 0 ==>
              b.fee >= 0 && b.creatorFee >= 0 && b.reflectionFee >= 0
  {
    FeeBreakdown(ScaledFee(price, fee), ScaledFee(price, creatorFee), ScaledFee(price, reflectionFee))
  }
}
