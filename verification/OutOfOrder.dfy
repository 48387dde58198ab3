/** Runs in which a boost falls short of the factor: one for every factor, with room below the cap. */
module OutOfOrder {
  import opened Prelude
  import opened Sorting
  import opened TxStore
  import opened Boosting
  import opened Pipeline
  import opened Raising
  import opened Pricing
  import opened Scenarios

  /** Room for two raises of a positive price. */
  lemma RoomBelowCap(prices: PriceConfig) returns (price: real)
    requires Sensible(prices) && prices.maxGasPrice > 0.0
    ensures price > 0.0 && prices.Scaled(prices.Scaled(price)) < prices.maxGasPrice
  {
    var f := prices.retryGasPriceFactor;
    ScaleUp(f, 1.0, f);
    var square := f * f;
    price := prices.maxGasPrice / (2.0 * square);
    assert price * (2.0 * square) == prices.maxGasPrice;
    assert price * square == prices.maxGasPrice / 2.0;
    assert (price * f) * f == price * square;
  }

  /** Raising is strict, and a price between a price and its raise is raised to between the next two. */
  lemma BetweenRaises(prices: PriceConfig, price: real) returns (between: real)
    requires Sensible(prices) && price > 0.0
    ensures price < between < prices.Scaled(price) < prices.Scaled(between) < prices.Scaled(prices.Scaled(price))
  {
    var f, raised := prices.retryGasPriceFactor, prices.Scaled(price);
    RaiseIsUp(prices, price);
    between := (price + raised) / 2.0;
    ScaleStrictly(price, between, f);
    ScaleStrictly(between, raised, f);
  }

  /**
   The insert of nonce 0 fails, nonce 1 is sent at `price` and the process restarts; nonce 1 is boosted, and then
   nonce 0 is sent at `low`.
   */
  lemma BoostedThenUndercut(cfg: Config, price: real, low: real) returns (end: State)
    requires price >= 0.0 && low >= 0.0 && price < cfg.prices.NewGasPrice(price)
    ensures Early(cfg, end) && end.worker.Idle? && end.mutex.Free?
    ensures var raised, height := cfg.prices.NewGasPrice(price), 1 + Patience(cfg);
      && end.docs == map[NonceSigner(1, cfg.worker) := WithAttempt(Entry(cfg, price, 1, 1), raised, height),
                         NonceSigner(0, cfg.worker) := Entry(cfg, low, 0, height)]
      && end.resends == map[NonceSigner(1, cfg.worker) := Resends(1, raised, raised, 0, {})]
  {
    hide PriceConfig.NewGasPrice, PriceConfig.Scaled, ReachableBy, WithAttempt;
    Begins(cfg);
    var s1 := SendLost(cfg, Init(cfg), price, 1);
    var s2 := SendNext(cfg, s1, price, 1);
    Next(cfg, s2, Restart);
    var s3 := Apply(cfg, s2, Restart);
    var s4 := BoostAlone(cfg, s3, Entry(cfg, price, 1, 1), 1 + Patience(cfg));
    end := SendNext(cfg, s4, low, 1 + Patience(cfg));
  }

  /**
   On the relay's own keys and with no poll overtaken: after a restart a transaction may take a lost nonce below one
   already boosted. If it is cheaper than the boosted entry has become, the next re-send of that entry falls short of
   the factor, whatever the factor.
   */
  lemma UndercutBreaksProgress(cfg: Config)
    requires Sensible(cfg.prices) && cfg.prices.maxGasPrice > 0.0
    ensures exists end, j ::
      ReachableBy(cfg, end, Undisturbed)
      && end.worker.Boosting? && end.worker.i <= j < |end.worker.txs| && !Progress(cfg.prices, end, j)
  {
    var price := RoomBelowCap(cfg.prices);
    var between := BetweenRaises(cfg.prices, price);
    hide PriceConfig.Scaled, Filter, WithAttempt, Progress;
    var raised, next := cfg.prices.NewGasPrice(price), cfg.prices.NewGasPrice(between);
    assert raised == cfg.prices.Scaled(price) && next == cfg.prices.Scaled(between);
    var height := 1 + Patience(cfg);
    var s := BoostedThenUndercut(cfg, price, between);
    var low, high := Entry(cfg, between, 0, height), WithAttempt(Entry(cfg, price, 1, 1), raised, height);
    TwoEntries(cfg, s.docs, low, high, raised);
    Filter2(low, high, next);
    var settled := RoundBegins(cfg, s, [low, high], height + Patience(cfg));
    var end := BoostBegins(cfg, settled, [low, high], [low, high], height + Patience(cfg));
    ReachableByIsReachable(cfg, end, Undisturbed);
    ResendProgress(cfg, end, 1);
    assert !Progress(cfg.prices, end, 1);
  }

  lemma TwoEntries(cfg: Config, docs: Docs, low: StoredTx, high: StoredTx, raised: real)
    requires exists price, between, height ::
      low == Entry(cfg, between, 0, height) && high == WithAttempt(Entry(cfg, price, 1, 1), raised, height)
    requires docs == map[NonceSigner(1, cfg.worker) := high, NonceSigner(0, cfg.worker) := low]
    ensures high.Key() == NonceSigner(1, cfg.worker) && high.gasPrice == raised
    ensures low.metadata.boostBlockNumber.None?
    ensures IsListing(docs, Some(cfg.worker), [low, high]) && IsListing(docs, None, [low, high])
  {
  }
}
