/** The arithmetic of raising a gas price by a factor, up to a cap. */
module Raising {
  import opened Boosting

  function MinReal(x: real, y: real): real {
    if x < y then x else y
  }

  /** `price` raised `n` times by the factor. */
  function Raised(factor: real, price: real, n: nat): real {
    if n == 0 then price else factor * Raised(factor, price, n - 1)
  }

  predicate Sensible(prices: PriceConfig) {
    prices.retryGasPriceFactor > 1.0 && prices.maxGasPrice >= 0.0
  }

  lemma ScaleUp(factor: real, x: real, y: real)
    requires factor > 0.0 && x <= y
    ensures factor * x <= factor * y == y * factor
  {
    assert factor * (y - x) >= 0.0;
    assert factor * (y - x) == factor * y - factor * x;
  }

  lemma ScaleStrictly(x: real, y: real, factor: real)
    requires x < y && factor > 0.0
    ensures x * factor < y * factor && factor * x < factor * y
  {
    assert factor * (y - x) > 0.0;
    assert factor * (y - x) == factor * y - factor * x;
  }

  lemma RaiseIsUp(prices: PriceConfig, price: real)
    requires Sensible(prices) && price > 0.0
    ensures price < prices.Scaled(price)
    ensures price < prices.maxGasPrice ==> price < prices.NewGasPrice(price)
  {
    var raised := prices.Scaled(price);
    ProductIsUp(prices.retryGasPriceFactor, price, raised);
    hide PriceConfig.Scaled;
  }

  lemma ProductIsUp(factor: real, price: real, raised: real)
    requires factor > 1.0 && price > 0.0 && raised == price * factor
    ensures price < raised
  {
    assert price * (factor - 1.0) > 0.0;
    assert price * (factor - 1.0) == price * factor - price;
  }

  lemma Monotone(factor: real, x: real, y: real, scaledX: real, scaledY: real)
    requires factor > 0.0 && scaledX == factor * x && scaledY == factor * y
    ensures x <= y <==> scaledX <= scaledY
  {
    if x <= y {
      ScaleUp(factor, x, y);
    } else {
      ScaleUp(factor, y, x);
      assert factor * (x - y) > 0.0;
    }
  }

  lemma MinCompares(max: real, raised: real, raisedLast: real)
    ensures MinReal(max, raised) >= MinReal(max, raisedLast) <==> raised >= raisedLast || raised >= max
  {
  }

  /**
   The price set by an entry at `oldest` reaches the factor times `last`, or the cap, exactly under this condition.
   */
  lemma ReachesFactorIff(prices: PriceConfig, oldest: real, last: real)
    requires Sensible(prices)
    ensures prices.NewGasPrice(oldest) >= MinReal(prices.maxGasPrice, prices.Scaled(last))
      <==> oldest >= last || prices.Scaled(oldest) >= prices.maxGasPrice
  {
    var raised, raisedLast := prices.Scaled(oldest), prices.Scaled(last);
    Monotone(prices.retryGasPriceFactor, last, oldest, raisedLast, raised);
    MinCompares(prices.maxGasPrice, raised, raisedLast);
    assert prices.NewGasPrice(oldest) == MinReal(prices.maxGasPrice, raised);
  }

  /** From `last` at or above `previous` or the cap, a raise past `last` is one past `previous`. */
  lemma OverPrevious(max: real, previous: real, raised: real, last: real, raisedLast: real, price: real)
    requires last >= MinReal(max, previous) && (previous <= last ==> raised <= raisedLast)
    requires last < price <= max && price >= MinReal(max, raisedLast)
    ensures previous < max && price >= MinReal(max, raised)
  {
  }

  lemma {:induction false} Bernoulli(factor: real, price: real, n: nat)
    requires factor >= 1.0 && price >= 0.0
    ensures Raised(factor, price, n) >= price + n as real * ((factor - 1.0) * price)
  {
    if n > 0 {
      Bernoulli(factor, price, n - 1);
      var before, gain := Raised(factor, price, n - 1), (factor - 1.0) * price;
      LinearStep(n - 1, gain);
      ScaleUp(n as real, 0.0, gain);
      assert (n - 1) as real * gain >= 0.0;
      ProductGrows(factor - 1.0, price, before);
      assert factor * before == before + (factor - 1.0) * before;
    }
  }

  lemma LinearStep(n: nat, gain: real)
    ensures (n + 1) as real * gain == n as real * gain + gain
  {
  }

  lemma ProductGrows(factor: real, x: real, y: real)
    requires factor >= 0.0 && x <= y
    ensures factor * x <= factor * y
  {
    assert factor * (y - x) >= 0.0;
  }

  /** As many raises as it takes `first` to stay below the cap are bounded by the linear gain of each. */
  lemma RaisesAreBounded(prices: PriceConfig, first: real, n: nat, fewer: nat)
    requires Sensible(prices) && first > 0.0 && fewer <= n
    requires Raised(prices.retryGasPriceFactor, first, n) < prices.maxGasPrice
    ensures fewer as real * ((prices.retryGasPriceFactor - 1.0) * first) < prices.maxGasPrice - first
  {
    Bernoulli(prices.retryGasPriceFactor, first, n);
    var gain := (prices.retryGasPriceFactor - 1.0) * first;
    ScaleUp(prices.retryGasPriceFactor - 1.0, 0.0, first);
    ProductGrows(gain, fewer as real, n as real);
  }
}
