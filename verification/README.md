# DealGenie pricing core in Dafny

DealGenie is an e-commerce price engine. Its Python backend ingests competitor
listings into a product store, simulates inventory and demand signals for each
row, and prices products against the competitor with a multi-factor discount.
Around that sit an A/B test registry and an admin endpoint for the discount
bounds. Its Next.js frontend adds signup and login, a cart, a checkout that
pays from an account balance, and a middleware that guards pages behind a JWT
cookie.

This project models that core as pure functions over immutable values and
proves its contracts:

| file | module | what it models |
|---|---|---|
| common.dfy | `Common` | Option, `max`/`min`/clamp, Python's `int()` truncation, ASCII `lower()`, `str()` of integers |
| settings.dfy | `Settings` | the configuration, its defaults and `update_discount_params` |
| signals.dfy | `Signals` | `calculate_simulated_inventory` and `calculate_demand_score` |
| pricing.dfy | `Pricing` | `calculate_discount` and `calculate_dynamic_price` |
| ingest.dfy | `Ingest` | `get_next_id`, `generate_fallback_data` and the `ingest_product` retry loop |
| abtest.dfy | `AbTest` | A/B create, active listing with lazy expiry, event recording, results |
| cart.dfy | `CartDb` | `getCart`, `addToCart`, `removeFromCart`, `clearCart` |
| users.dfy | `Users` | the users table, its UNIQUE username, the row lookup |
| auth.dfy | `Auth` | the signup and login routes |
| checkout.dfy | `Checkout` | the checkout route |
| middleware.dfy | `Middleware` | the matcher, URL path extraction and the allow/redirect decision |

Floats are Dafny `real`s, so rounding error does not exist in the model. The
outside world is passed in as parameters:

- **Ingestion:** the pricing API is `outcomeAt: nat -> Attempt`, what attempt
  `k` delivers (a failure, or a list of search results). Sleeps are recorded
  in the result rather than taken.
- **Simulated signals:** the price-seeded generator is `draw: int -> real`,
  indexed by the seed `int(price)`. `sin(time / 86400)` is `sine`, one value for a whole ingestion.
- **Time:** the wall clock is `now` (seconds) for the A/B registry, `hour` for
  pricing and `timestamp` for checkout.
- **Crypto:** bcrypt and JWT are the uninterpreted parameters `hash`,
  `compare`, `token` and `verify`. `hash`, `compare` and `token` return an
  Option: None stands for a call that throws.

Where the code does something one would not expect from its names and
comments, the model follows the code and proves what it does:

- **'aggressive' against 'premium':** the comments in main.py:702 and
  main.py:706 call 'aggressive' the more aggressive pricing and 'premium'
  the one with smaller discounts. For every rank inside the configured
  domain 'aggressive' does give the larger base discount
  (`Pricing.AggressiveAbovePremium`). Both discounts are lines in the rank
  with no clamp, and the 'aggressive' line falls faster, so they cross. Under
  the default configuration they cross at a rank of about 0.418, a little
  above the domain's top of 0.3. Ingestion stores a row's batch position as
  its rank, so every row after the first has rank 1 or more, past the
  crossing. For those rows the order flips
  (`Pricing.AggressiveBelowPremiumPastDomain`).
- **Base discounts leave the output range:** with the default configuration,
  the first row's base discount exceeds the configured maximum. Every later
  row's base discount is negative, so the final clamp gives it a 1% discount
  (`Pricing.BatchPositionRankQuirk`).
- **Appends are not all-or-nothing:** one would expect an attempt either to
  append all of its rows or none. In the code, a malformed price raises
  mid-append. The rows already written stay, and the loop retries or falls back
  (`Ingest.PartialAppendSurvives`).
- **Only counter ids are unique:** a row takes the search result's own id
  when it has one, stored as given. Ingesting the same delivery twice, or a
  retry after a partial append, stores that id again
  (`Ingest.ReingestRepeatsApiId`). Only ids drawn from the counter are
  pairwise distinct (`Ingest.IngestKeepsIdsUnique`).
- **Unknown arms and event types:** the results endpoint reads only arms `a`
  and `b`. The recording endpoint accepts any arm or event type, and one it
  does not know is recorded as a silent no-op
  (`AbTest.UnknownEventChangesNothing`).
- **The middleware's reach:** its matcher covers only the root and the pages
  under '/app'. A token-less request for any other path, '/api/checkout'
  included, passes without a check (`Middleware.UnmatchedPassesThrough`).

## Model

| member | source | states |
|---|---|---|
| Common.Trunc | backend/app/main.py:53 | `int()` truncates toward zero: a non-negative x gives r <= x < r + 1, a negative one r - 1 < x <= r |
| Common.AsciiLower | backend/app/main.py:46 | `lower()` keeps the length and lower-cases each ASCII capital, leaving every other character |
| Common.IntToString | backend/app/main.py:566 | the decimal text of an integer is non-empty and starts with '-' exactly for a negative one |
| Common.IntToStringInjective | backend/app/main.py:566 | different integers print differently |
| Signals.PriceFactor | backend/app/main.py:35 | the price factor lies in [0.1, 2.0]; it is 2.0 for prices up to 5000, 10000 / price strictly between 5000 and 100000, and 0.1 from 100000 up |
| Signals.TypeModifier | backend/app/main.py:38-46 | the category multiplier lies in [0.8, 1.5] |
| Signals.SimulatedInventory | backend/app/main.py:53-54 | the stock lies in [1, 500] and equals the truncated raw stock whenever that is already in range |
| Signals.InventoryFor | backend/app/main.py:49-54 | the stock of a row lies in [1, 500]; when the host's draws lie in [0, 1) it lies in [6, 359] and is the truncated raw stock for the generator seeded with `int(price)` |
| Signals.InventoryClampInactive | backend/app/main.py:34-54 | for a draw in [0, 1) the stock lies in [6, 359], so the [1, 500] clamp never changes the truncated value |
| Signals.PositionScore | backend/app/main.py:60 | the position score is the larger of 0.3 and 2.0 - 0.1 * position |
| Signals.PositionScoreNonIncreasing | backend/app/main.py:60 | a later search position never scores higher than an earlier one |
| Signals.PriceScore | backend/app/main.py:63-75 | the price-band score lies in [0.6, 1.5] |
| Signals.DemandScore | backend/app/main.py:81-82 | the demand score lies in [0.1, 3.0] and equals the raw product whenever that is in range |
| Signals.DemandFor | backend/app/main.py:57-82 | the demand of a row lies in [0.1, 3.0]; with a sine in [-1, 1] and a position of 0 or more it is the raw score cut at 3.0 |
| Signals.DemandLowerClampInactive | backend/app/main.py:57-82 | for real positions and sines the raw score is at least 0.126, so only the upper bound of the clamp can act |
| Signals.DemandUpperClampReachable | backend/app/main.py:60-82 | the upper bound does act: the top phone at 20000 at the crest of the cycle scores above 3 and is cut to 3.0 |
| Pricing.Discount | backend/app/main.py:673-679 | a degenerate domain (max_disc == min_disc) yields exactly max_discount |
| Pricing.DiscountIsLine | backend/app/main.py:676-679 | over a proper domain the discount is affine in the rank: it lies on the line through (min_disc, max_discount) with slope -(max_discount - min_discount) / (max_disc - min_disc) |
| Pricing.DiscountEndpoints | backend/app/main.py:676-679 | rank min_disc yields max_discount and rank max_disc yields min_discount |
| Pricing.DiscountNonIncreasing | backend/app/main.py:676-679 | with max_disc > min_disc and min_discount <= max_discount a higher rank never yields a larger discount, and strictly smaller over a proper range |
| Pricing.DiscountUnclamped | backend/app/main.py:678-679 | there is no clamp: ranks below the domain exceed max_discount and ranks above it fall below min_discount |
| Pricing.StrategyRange | backend/app/main.py:701-710 | 'aggressive' selects [0.1, 0.4], 'premium' [0.02, 0.15], any other name the configured bounds |
| Pricing.InventoryFactor | backend/app/main.py:713-717 | 1.1 exactly when stock is below 10, 0.95 exactly above 200, 1.0 exactly in between |
| Pricing.DemandFactor | backend/app/main.py:720-724 | 1.05 exactly above 2.0, 0.9 exactly below 0.5, 1.0 exactly in between |
| Pricing.TimeFactor | backend/app/main.py:727-732 | 1.02 exactly in hours 18-22, 0.98 exactly in hours 2-6, 1.0 otherwise |
| Pricing.Adjustment | backend/app/main.py:735 | the product of three positive factors is positive, so the division is defined |
| Pricing.Settle | backend/app/main.py:735-738 | the final discount is the adjusted discount clamped into [0.01, 0.5], and the price is the competitor price less that fraction |
| Pricing.DynamicPrice | backend/app/main.py:682-749 | the base discount normalises over the configured bounds whatever the strategy; the factors are the three lookups (missing inventory 100, missing demand 1.0); the tail is Settle, so the final discount lies in [0.01, 0.5] and a competitor price c >= 0 yields a price in [0.5c, 0.99c] |
| Pricing.PriceWithin | backend/app/main.py:736-738 | a discount in [0.01, 0.5] puts the price between half and 99% of a non-negative competitor price |
| Pricing.DomainIgnoresStrategy | backend/app/main.py:697-710 | under every strategy the configured minimum rank earns the strategy's top discount and the configured maximum its bottom one |
| Pricing.AggressiveAbovePremium | backend/app/main.py:701-710 | for a rank inside the configured domain 'aggressive' gives a strictly larger base discount than 'premium' |
| Pricing.AggressiveBelowPremiumPastDomain | backend/app/main.py:697-710 | under the default configuration a rank of 1 or more gives 'aggressive' a strictly smaller base discount than 'premium' |
| Pricing.BatchPositionRankQuirk | backend/app/main.py:694-736 | with the default configuration, rank 0 gives a base discount above 0.3, and every rank >= 1 gives a negative base discount, a final discount of 0.01 and a price of 0.99c |
| Settings.UpdateDiscountParams | backend/app/main.py:966-980 | an update happens exactly when both keys are given and 0 <= min <= max <= 1; a missing key answers "Missing parameters.", a bad pair the range error, both leave the configuration unchanged; only the two bounds ever change |
| Settings.DefaultIsValid | backend/app/main.py:153-160 | the default configuration satisfies the bound invariant, with 3 attempts and a 2.0 s delay |
| Settings.UpdatePreservesValidity | backend/app/main.py:972-980 | whatever is posted, a valid configuration stays valid |
| Settings.UpdateIdempotent | backend/app/main.py:972-980 | posting the same parameters twice has the effect of posting them once |
| Settings.InvertedPairRejected | backend/app/main.py:975-976 | max 0.2 with min 0.5 is refused with the range error and nothing changes |
| Ingest.GetNextId | backend/app/main.py:204-210 | the id handed out is the counter's value, the counter advances by exactly one, and the rows are untouched |
| Ingest.Catalog | backend/app/main.py:118-122 | a name whose lower-cased form is a known category gets that category's three products; any other name gets the three placeholders; always three entries with positive prices |
| Ingest.FallbackProductsWellFormed | backend/app/main.py:91-116 | the table's keys are exactly phone, laptop, headphones, speakers and smart watches, each with three products at positive prices |
| Ingest.Placeholders | backend/app/main.py:118-122 | the placeholders are 'Sample <name> Product k' for k = 1, 2, 3 with images product1..3.jpg and prices 20000, 15000 and 30000 |
| Ingest.CatalogIgnoresCase | backend/app/main.py:118 | 'Phone' selects the 'phone' products |
| Ingest.CatalogPlaceholderExample | backend/app/main.py:118-122 | 'tablet' is not a known category and gets the placeholders |
| Ingest.AppendFallback | backend/app/main.py:125-141 | the catalog rows are appended after the existing rows, with rank = index, consecutive counter ids, the catalog names and prices, and fresh signals; existing rows and id order are kept |
| Ingest.FallbackResponse | backend/app/main.py:144-149 | the fallback body is success with 3 products, source 'fallback' and its message |
| Ingest.GenerateFallback | backend/app/main.py:85-150 | the fallback always answers success / 3 products / 'fallback' with its message, appends exactly three fresh rows with ranks 0, 1, 2 and counter ids, and keeps ids unique |
| Ingest.FallbackLeavesCatalogTail | backend/app/main.py:125-141 | after the fallback the last three rows are the catalog's entries in order, with their names, prices and images, ranks 0..2, and counter ids and product links numbered up to the counter |
| Ingest.AppendItem | backend/app/main.py:368-387 | one result appends exactly one row priced at the parsed price and ranked at its batch position; a result with an id keeps it and leaves the counter alone, one without takes the counter's value and advances it by one; ids stay well numbered |
| Ingest.ItemRow | backend/app/main.py:368-384 | the row for a result carries the product name, rank, the given id and the price as both prices, with in-range signals; with the result's parsed price and the id rule it is the result's row (name or 'Unknown <product>', image and link or '') |
| Ingest.ParsePrice | backend/app/main.py:370 | a missing price reads as 0.0, a number as itself, and `float()` fails exactly on a malformed value |
| Ingest.FirstMalformed | backend/app/main.py:366-370 | the position of the first item from `from` whose price does not parse, or the end: every earlier price parses |
| Ingest.WriteItems | backend/app/main.py:366-387 | the append loop completes exactly when every remaining price parses, and writes exactly the rows before the first malformed price, which stay when it raises; the rows are fresh and carry their batch position as rank |
| Ingest.WriteItemsRows | backend/app/main.py:366-387 | the written rows are, in order, the rows for the search results from the starting position on |
| Ingest.WriteItemsCounter | backend/app/main.py:381 | the written rows without an id of their own take the counter's values in order, and the counter ends just past the last one |
| Ingest.Succeeds | backend/app/main.py:299-387 | an attempt gets through exactly when it delivers a non-empty list and every price in it parses |
| Ingest.TryAttempt | backend/app/main.py:299-387 | one attempt completes exactly when it delivers a non-empty list whose prices all parse; a delivery writes exactly the rows before its first malformed price; a failed request or an empty list writes nothing |
| Ingest.BackoffIsExponential | backend/app/main.py:302-304 | the i-th sleep of a doubling backoff is delay * 2^i |
| Ingest.ScheduleFrom | backend/app/main.py:283-419 | the attempts from k: at most n of them, the sleeps between them are the doubling backoff, 'api' exactly ends on the first attempt that gets through, 'fallback' means every attempt failed and all n were made |
| Ingest.RunFrom | backend/app/main.py:283-419 | the loop from attempt k: the schedule's bounds and sleeps; 'api' reports the item count of the first successful attempt and no message; 'fallback' reports the fallback body after every attempt failed |
| Ingest.StoreFrom | backend/app/main.py:283-419 | the retry loop only appends to the store |
| Ingest.StoreFromFresh | backend/app/main.py:283-419 | every row the retry loop appends carries the product name, our price = competitor price, a non-negative rank and in-range signals |
| Ingest.StoreFromNumbered | backend/app/main.py:283-419 | the retry loop keeps counter-issued ids increasing and below the counter |
| Ingest.StoreFromApiTail | backend/app/main.py:283-387 | when attempt j is the first to get through, the run ends with that attempt's rows, in order, and has appended at least that many |
| Ingest.StoreFromFallbackTail | backend/app/main.py:283-419 | when no attempt gets through, the run ends with the three fallback rows |
| Ingest.RunStore | backend/app/main.py:283-419 | a whole run ends with the reported attempt's rows or the fallback rows, appends only fresh rows and keeps counter ids well numbered |
| Ingest.IngestProduct | backend/app/main.py:276-419 | at most retry_attempts attempts with sleeps delay * 2^i between them; 'api' reports the first successful attempt's item count, and that attempt's rows, in order, are the last rows of the store; otherwise the fallback result, and the three catalog rows are the last rows; the store is only appended to, with fresh rows and unique counter ids |
| Ingest.ApiIffSomeAttemptSucceeds | backend/app/main.py:283-419 | the source is 'api' exactly when some allowed attempt delivers a non-empty, fully parseable list |
| Ingest.NoAttemptsMeansFallback | backend/app/main.py:283-419 | with retry_attempts <= 0 there is no attempt and no sleep, and the fallback answers |
| Ingest.PartialAppendSurvives | backend/app/main.py:366-387 | a malformed second price on the only attempt leaves the first item's row next to three fallback rows, while the response reports 3 products |
| Ingest.FallbackRowsPricedBelowCompetitor | backend/app/main.py:125-141 | a fallback row priced under any strategy, configuration and hour costs between half its competitor price and that price |
| Ingest.IngestKeepsIdsUnique | backend/app/main.py:381 | no two counter-issued ids in the store coincide after an ingestion (ids the API supplies are not covered) |
| Ingest.ReingestRepeatsApiId | backend/app/main.py:381 | ingesting the same delivery twice stores the result's own id on two different rows |
| Ingest.InitialStoreWellNumbered | backend/app/main.py:197-199 | the empty store with counter 1 satisfies the id invariant |
| AbTest.TestId | backend/app/main.py:566 | every test id is "test_" followed by a non-empty rest (the whole seconds); distinct seconds give distinct ids per DistinctSecondsKeepBoth |
| AbTest.Create | backend/app/main.py:563-589 | the registry gains exactly the clock's id, holding an active test with the request's fields, zeroed arms and an end `duration_hours` hours after its start; every other test is unchanged |
| AbTest.SameSecondOverwrites | backend/app/main.py:566-569 | two creates in the same second share an id and the second replaces the first |
| AbTest.DistinctSecondsKeepBoth | backend/app/main.py:566-569 | creates in different seconds get different ids, so the earlier test survives |
| AbTest.Expire | backend/app/main.py:599-602 | only the status changes, and it stays active exactly while the test is live |
| AbTest.ListActive | backend/app/main.py:592-606 | the listing holds exactly the active tests whose end is still ahead, unchanged; every overdue active test becomes completed; completed tests and all other fields are unchanged |
| AbTest.ListActiveIdempotent | backend/app/main.py:592-606 | a second listing at the same instant returns the same tests and writes nothing new |
| AbTest.ExpiryIsFinal | backend/app/main.py:597-603 | a test that has dropped out of the listing never reappears at a later time |
| AbTest.ZeroHourTestExpiresAtOnce | backend/app/main.py:566-603 | a zero-hour test is missing from the next listing and stored as completed |
| AbTest.NewTestListedUntilEnd | backend/app/main.py:566-600 | a test with a positive duration is listed until its end time |
| AbTest.DefaultRequest | backend/app/main.py:266-267 | a request without a duration or split runs 24 hours at a 0.5 split |
| AbTest.DefaultTestListedForADay | backend/app/main.py:563-600 | a test created with the defaults has split 0.5, ends 86400 s after its start, and is listed until then |
| AbTest.ArmKey | backend/app/main.py:619-620 | only arms 'a' and 'b' name a counter set |
| AbTest.Count | backend/app/main.py:621-625 | a view adds one view; a conversion adds one conversion and the value to revenue; any other type changes nothing |
| AbTest.RecordEvent | backend/app/main.py:609-628 | an unknown id is not found; otherwise only the addressed arm of the addressed test changes, with the defaults 'a', 'view' and 0 |
| AbTest.UnknownEventChangesNothing | backend/app/main.py:619-625 | an unknown arm or event type succeeds and leaves the registry as it was |
| AbTest.RecordKeepsListing | backend/app/main.py:609-628 | recording never changes which tests are listed as active |
| AbTest.EmptyBodyIsViewOnA | backend/app/main.py:615-617 | an empty body records one view on arm 'a' |
| AbTest.ConversionRate | backend/app/main.py:642-643 | the rate times the views is the conversions when there are views; with none it is the raw conversion count |
| AbTest.AverageRevenue | backend/app/main.py:645-646 | the average times the conversions is the revenue when there are conversions; with none it is the raw revenue |
| AbTest.Decide | backend/app/main.py:652-654 | a tie exactly when the rates differ by less than 0.01, otherwise the arm whose rate is at least 0.01 higher |
| AbTest.Results | backend/app/main.py:631-667 | an unknown id is not found; otherwise the rates in percent, the averages, the tie rule, 'insufficient_data' exactly below 100 total views and the gap in percent; the registry is only read |
| AbTest.RateIsFraction | backend/app/main.py:642-643 | with no more conversions than views the rate lies in [0, 1] |
| AbTest.DecideSymmetric | backend/app/main.py:652-654 | swapping the arms swaps the winner and keeps a tie |
| AbTest.AbsoluteThreshold | backend/app/main.py:652-654 | 10% against 10.4% is a tie, and so is 0.5% against 1.4%, while 10% against 11% goes to b |
| AbTest.FreshTestReport | backend/app/main.py:642-654 | a freshly created test reports a tie on insufficient data with zero rates |
| CartDb.Filter | frontend/src/app/db/cartDb.js:3-22 | the filtered table holds each row that passes with its full multiplicity and no other row |
| CartDb.GetCart | frontend/src/app/db/cartDb.js:3-5 | the cart holds exactly the user's rows, each with its multiplicity |
| CartDb.AddToCart | frontend/src/app/db/cartDb.js:7-12 | exactly one row (user, product, name, price) is added and the other rows are kept |
| CartDb.RemoveFromCart | frontend/src/app/db/cartDb.js:14-18 | every row for (user, product) goes and every other row is kept with its multiplicity |
| CartDb.ClearCart | frontend/src/app/db/cartDb.js:20-22 | every row of the user goes and every other user's row is kept with its multiplicity |
| CartDb.Total | frontend/src/app/api/checkout/route.js:12 | the fold from 0 gives 0 for an empty cart and the price of a one-row cart; TotalConcat carries it over concatenation |
| CartDb.TotalConcat | frontend/src/app/api/checkout/route.js:12 | the left-fold total of two carts is the sum of their totals |
| CartDb.TotalNonNegative | frontend/src/app/api/checkout/route.js:12 | with no negative price the total is never negative |
| CartDb.AddThenRemove | frontend/src/app/db/cartDb.js:7-18 | after adding a product and removing it, no row for that user and product remains |
| CartDb.AddThenGet | frontend/src/app/db/cartDb.js:3-12 | an added row appears in the user's cart |
| CartDb.ClearEmpties | frontend/src/app/db/cartDb.js:3-5 | after clearing, the user's cart is empty |
| CartDb.ClearKeepsOthers | frontend/src/app/db/cartDb.js:20-22 | clearing one user's cart leaves every other user's cart identical, order included |
| CartDb.RemoveKeepsOthers | frontend/src/app/db/cartDb.js:14-18 | removing a product for one user leaves every other user's cart identical |
| Users.Find | frontend/src/app/api/auth/login/route.js:23 | the lookup finds the first row with the name, and finds nothing exactly when no row has it |
| Users.FindUnique | frontend/src/app/db/db.js:10 | under the UNIQUE constraint the row found is the only row with that name |
| Users.AppendUnique | frontend/src/app/db/db.js:10 | appending a row with a new name keeps usernames unique |
| Auth.Signup | frontend/src/app/api/auth/signup/route.js:11-53 | checks in order: missing field 400, short password 400, existing name 409, hashing failure or bad body 500, else 201 with exactly one new row (hashed password, balance 100000); any non-201 leaves the table unchanged |
| Auth.SignupPreservesUnique | frontend/src/app/api/auth/signup/route.js:29-40 | signup keeps usernames unique |
| Auth.SignupOnlyAppends | frontend/src/app/api/auth/signup/route.js:38-40 | signup adds at most one row and never changes an existing one |
| Auth.PresenceCheckedBeforeLength | frontend/src/app/api/auth/signup/route.js:15-27 | a missing or empty field reports the missing field even with a short password; a short password alone reports its length |
| Auth.Login | frontend/src/app/api/auth/login/route.js:12-61 | bad body 500, missing field 400, unknown name or wrong password 401 with one shared body and no cookie, a throwing comparison or signer 500; otherwise 200 with the token cookie httpOnly, secure exactly in production, maxAge 3600, path '/', sameSite 'strict'; the table is only read |
| Auth.UnknownUserLooksLikeWrongPassword | frontend/src/app/api/auth/login/route.js:25-39 | an unknown name and a wrong password for a known name get the same answer |
| Auth.SignupThenLogin | frontend/src/app/api/auth/login/route.js:23-53 | logging in with just-signed-up credentials succeeds with the new row's token |
| Checkout.SetAccount | frontend/src/app/api/checkout/route.js:34-35 | every row with the name gets the new balance and log; no other row changes |
| Checkout.Checkout | frontend/src/app/api/checkout/route.js:5-40 | missing name 400, unknown user 404, balance below the total 402, all with nothing changed; otherwise paid with the balance less the total (never negative), one purchase entry appended and the cart cleared |
| Checkout.PaidCheckoutLedger | frontend/src/app/api/checkout/route.js:23-37 | the new balance plus the total is the old balance; earlier log entries are kept and exactly one purchase of the total with the cart's items is appended; other accounts are untouched; the cart is empty afterwards |
| Checkout.CheckoutPreservesUnique | frontend/src/app/api/checkout/route.js:34-35 | checkout keeps usernames unique |
| Checkout.SecondCheckoutLogsEmptyPurchase | frontend/src/app/api/checkout/route.js:11-37 | checking out again right away pays 0, keeps the balance and still logs a purchase of 0 |
| Checkout.EmptyCartAlwaysPaid | frontend/src/app/api/checkout/route.js:11-32 | an empty cart is always paid when the balance is not negative, keeps the balance and logs a purchase of 0 |
| Middleware.Split | frontend/src/middleware.js:21 | the split yields at least one piece and no piece holds a slash |
| Middleware.JoinSplit | frontend/src/middleware.js:21 | joining the pieces with '/' gives back the URL |
| Middleware.SplitJoin | frontend/src/middleware.js:21 | splitting a join of slash-free pieces gives the pieces back |
| Middleware.ExtractPath | frontend/src/middleware.js:21-24 | with exactly five pieces the path is '/' + piece 3 + '/' + piece 4 and starts with a slash; with four or more than five it is piece 3; with three or fewer it is ''; except for five pieces it holds no slash |
| Middleware.Decide | frontend/src/middleware.js:27-57 | home redirect exactly for the root path with a verifying token; root redirect exactly for a page off the list without a verifying token; through otherwise, so the inner `!path` redirect never fires |
| Middleware.Handle | frontend/src/middleware.js:16-62 | a URL the matcher does not cover (anything but the root and '/app' and below) passes whatever its token; a matched URL gets the decision for its extracted path |
| Middleware.TwoSegmentPath | frontend/src/middleware.js:21-24 | a URL with two path segments is checked as '/first/second' |
| Middleware.RootIsEmptyPath | frontend/src/middleware.js:22-24 | the site root, with or without a trailing slash, is the path '' |
| Middleware.TrailingSlashIsProtected | frontend/src/middleware.js:21-57 | '/app/home' passes without a token but '/app/home/' is checked as 'app' and redirects to '/' |
| Middleware.RootDecisions | frontend/src/middleware.js:27-57 | at the root a verifying token goes home, and a missing or failing token sees the page |
| Middleware.ProtectedPage | frontend/src/middleware.js:38-62 | a two-segment page off the list under '/app' passes exactly with a verifying token and otherwise redirects to '/'; under any other first segment it passes |
| Middleware.MatcherScope | frontend/src/middleware.js:60-62 | the middleware runs for the root (with or without a trailing slash) and for '/app' with any segments below it, and for nothing else |
| Middleware.UnmatchedPassesThrough | frontend/src/middleware.js:60-62 | '/api/checkout' without a token passes, because the matcher does not cover it |

## Left out

- Rounding: `round(x, 2)` on prices, discounts, demand scores and A/B figures is not modelled; every value is the unrounded real.
- Persistence: the CSV, the config file, the A/B JSON file and the id-counter file are in-memory values, so file errors and concurrent writers are not modelled.
- Network: the pricing API's job submission and polling are abstracted to one outcome per attempt, and the polling's own 30 x 10 s sleeps are not recorded. `product_by_id` is not part of this model.
- Threads: the `periodic_ingest` background loop and its startup hook are not modelled.
- Random and trigonometric values: the Mersenne-Twister draw and `sin` are unconstrained parameters. `Signals.ValidEnv` names the ranges the host guarantees, [0, 1) and [-1, 1], and only the tighter bounds of `InventoryFor` and `DemandFor` assume it.
- Analytics and maintenance endpoints (analytics, performance, competitive price lookup, bulk and single price updates, inventory status and update) are dataframe plumbing around the modelled functions and are not part of this model.
- Non-ASCII case folding: `lower()` is modelled on ASCII letters only.
- String lengths: a password's length is counted in characters, not UTF-16 code units.
- Non-string JSON fields: request fields are strings or absent. Numbers or objects where the routes expect strings (and their JavaScript truthiness) are not modelled, and neither are non-numeric A/B values.
- Timestamps: the ingestion timestamp column is not modelled. The A/B start and end come from one clock reading, while the source reads the clock twice, microseconds apart.
- `traffic_split`: it is stored and never used.
- Parsing the stored transaction log: `JSON.parse` of the log is taken to succeed, and a missing log is the empty log.
- Checkout's unparsable request body: it raises outside any handler, so the framework answers; the model starts from the parsed username.
- Framework responses: status codes and bodies are modelled; headers other than the login cookie are not.
- The test files under backend/tests are not a source of properties: they import a helper and expect response keys that the backend does not define.
- Signals.TypeModifier: states only the multiplier's range; the five category values appear in its body.
- Signals.PriceScore: states only the score's range; the band values appear in its body.
- Pricing.Discount: states only the degenerate case; the line, endpoint, monotonicity and no-clamp lemmas state the rest.
- Ingest.RunFrom: states the schedule and the response only; the store facts are stated by StoreFrom, StoreFromFresh, StoreFromNumbered and the two tail lemmas, and gathered in IngestProduct's contract.
- Ingest.IngestProduct: on 'api' it states which rows come last and that at least that many were appended, not how many rows failed attempts left before them; on 'fallback' it states the last three rows only.
- Settings.UpdateDiscountParams: the two keys are absent or numbers. A non-numeric value, such as a quoted number, makes the range comparison raise a TypeError; the framework then answers 500 and the configuration stays as it was. That response is not modelled.
- Signals.DemandFor: one `sine` stands for every clock reading of an ingestion. The source reads the clock again for each row's demand score, across retries seconds apart, so rows of one ingestion may differ slightly in their daily-cycle factor; the model gives them all the same one.
- Middleware.Matched: the matcher is read on the URL's pieces; query strings and the framework's own trailing-slash handling are not modelled.
- Pricing.DynamicPrice: states the clamp and the price through its equation with Settle, which carries the clamp contract.
- Users.Find: the SQL lookup is the first row with the name; with the UNIQUE constraint this is the only one.
- Library imports: the users table and cart helpers that the checkout route imports from its library folder are not part of this model. They are taken to behave like app/db/db.js and app/db/cartDb.js.
