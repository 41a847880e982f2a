/**
  The process-wide pricing configuration and the admin operation that
  changes its discount bounds (`update_discount_params`). The JSON file that
  persists it is not modelled: the configuration returned by an operation is
  the one that would be saved.
 */
module Settings {
  import opened Common

  datatype Config = Config(
    maxDiscount: real,
    minDiscount: real,
    enablePeriodicIngestion: bool,
    ingestionIntervalSeconds: int,
    retryAttempts: int,
    retryDelaySeconds: real
  )

  /** The configuration written when no configuration file exists. */
  const Default := Config(0.3, 0.05, true, 3600, 3, 2.0)

  /** The invariant the admin endpoint enforces on the discount bounds. */
  predicate ValidBounds(minDiscount: real, maxDiscount: real) {
    0.0 <= minDiscount <= maxDiscount <= 1.0
  }

  predicate Valid(c: Config) {
    ValidBounds(c.minDiscount, c.maxDiscount)
  }

  const MissingMessage := "Missing parameters."
  const InvalidMessage := "Invalid discount values. Ensure 0 <= min_discount <= max_discount <= 1."

  datatype Response = Updated(config: Config) | Rejected(error: string)

  datatype Update = Update(response: Response, config: Config)

  /**
    POST /admin/discount_params. `maxDiscount`/`minDiscount` are the two
    request keys, `None` when absent or null.
   */
  function UpdateDiscountParams(c: Config, maxDiscount: Option<real>, minDiscount: Option<real>): (u: Update)
    ensures (maxDiscount.None? || minDiscount.None?) <==> u.response == Rejected(MissingMessage)
    ensures u.response == Rejected(InvalidMessage) <==>
      maxDiscount.Some? && minDiscount.Some? && !ValidBounds(minDiscount.value, maxDiscount.value)
    ensures u.response.Updated? <==>
      maxDiscount.Some? && minDiscount.Some? && ValidBounds(minDiscount.value, maxDiscount.value)
    ensures u.response.Rejected? ==> u.config == c
    ensures u.response.Updated? ==>
      && u.response.config == u.config
      && u.config.maxDiscount == maxDiscount.value
      && u.config.minDiscount == minDiscount.value
      && Valid(u.config)
    // nothing but the two bounds ever changes
    ensures u.config.(maxDiscount := c.maxDiscount, minDiscount := c.minDiscount) == c
  {
    if maxDiscount.Some? && minDiscount.Some? then
      if !(0.0 <= minDiscount.value <= maxDiscount.value <= 1.0) then
        Update(Rejected(InvalidMessage), c)
      else
        var c' := c.(maxDiscount := maxDiscount.value, minDiscount := minDiscount.value);
        Update(Updated(c'), c')
    else
      Update(Rejected(MissingMessage), c)
  }

  lemma DefaultIsValid()
    ensures Valid(Default)
    ensures Default.retryAttempts == 3 && Default.retryDelaySeconds == 2.0
  {
  }

  /** Whatever is posted, a valid configuration stays valid. */
  lemma UpdatePreservesValidity(c: Config, maxDiscount: Option<real>, minDiscount: Option<real>)
    requires Valid(c)
    ensures Valid(UpdateDiscountParams(c, maxDiscount, minDiscount).config)
  {
  }

  /** Posting the same parameters twice has the effect of posting them once. */
  lemma UpdateIdempotent(c: Config, maxDiscount: Option<real>, minDiscount: Option<real>)
    ensures var once := UpdateDiscountParams(c, maxDiscount, minDiscount);
            UpdateDiscountParams(once.config, maxDiscount, minDiscount) == once
  {
  }

  /** The example of an inverted pair: min above max is refused and nothing changes. */
  lemma InvertedPairRejected(c: Config)
    ensures UpdateDiscountParams(c, Some(0.2), Some(0.5)) == Update(Rejected(InvalidMessage), c)
  {
  }
}
