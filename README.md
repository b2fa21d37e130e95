# Sports-team stock exchange: order placement, reward redemption, gateway errors and form helpers

This project models, in Dafny, the core of a platform on which fans buy and
sell "shares" of sports teams and redeem team rewards with their holdings:

- `Trading` — the trading service's `POST /orders` handler. It validates the
  request, runs the checks inside one database transaction, and then either
  records a pending limit order or executes a market order. Executing a
  market order records the transaction, moves cash, merges or reduces the
  holding, and nudges the team's share price by 0.1%. The module also models
  the daily-change arithmetic of the portfolio endpoint. The database is a
  value (`Trading.Ledger`). The service is a class whose fields are its
  tables. `BEGIN` takes a snapshot and `ROLLBACK` restores it.
- `Rewards` — the rewards service's redeem handler, run under the same
  transaction discipline. It checks seven refusal reasons in the source's
  order, then builds the redemption code, the 30-day expiry clamped to the
  reward's end date, the `user_rewards` row, the stock decrement and the
  activity row. The module also models the listing's eligibility `CASE`,
  its active/upcoming filters, the redeemed-rewards filters and display
  status, and the pagination arithmetic.
- `ErrorHandler` — the API gateway's error middleware. It maps an error to
  an HTTP status and message, and includes the stack trace only outside
  production.
- `Utils` — the frontend helpers `validateEmail`, `validatePassword`,
  `truncate`, `omit` and `pick`.
- `Wrappers` — `Option`, `Result`, JavaScript truthiness of numbers, and
  the length of a day in milliseconds.

Each state-changing handler is a method of a class. Its `ensures` ties the
result and the new state to a pure function of the old state, such as
`Trading.Place` or `Rewards.Redeem`. The properties the source promises are
proved as lemmas about those functions. Timestamps are milliseconds since
the epoch, and money and share counts are exact reals. Values the code draws
from outside are parameters of the handlers: the current time, uuids, the
random code suffix and `NODE_ENV`.

Redemption eligibility and the listing's `is_eligible` column are related
but not identical:

- `Rewards.RedeemEligibleIsListed` proves that a user the redeem handler
  finds eligible is listed as eligible, for every reward except one with no
  share requirement and a hold of exactly 0 days.
- `Rewards.ListedIsRedeemEligible` proves the converse for rewards with no
  share requirement or no non-zero hold-days requirement.
- `Rewards.ListingIgnoresHoldDaysWhenSharesRequired` exhibits a reward that
  is listed as eligible but refused at redemption. The reward needs both
  shares and a holding period: the listing's `CASE` takes its shares branch
  first and never looks at the holding period.
- `Rewards.ZeroHoldDaysRedeemableButNotListed` exhibits the opposite
  mismatch. A reward with no share requirement and `required_hold_days` 0 is
  redeemable by a user with no holdings, because 0 is falsy in the redeem
  handler. The listing's `CASE` still tests `IS NOT NULL` and asks for a
  holding, so it lists that reward as not eligible.

## Model

| member | source | states |
|---|---|---|
| ErrorHandler.Handle | api-gateway/middleware/errorHandler.js:6-32 | the response status and the body's `status` are the same number, the one the name cases or the `statusCode \|\| 500` default choose; the body carries the stack exactly when NODE_ENV is not `production` and the error has a stack |
| ErrorHandler.Classify | api-gateway/middleware/errorHandler.js:6-22 | a known name gives one of 400, 401, 403, 404; any other name without a truthy statusCode gives 500; the message is empty only for a ValidationError |
| ErrorHandler.KnownNameFixesStatus | api-gateway/middleware/errorHandler.js:10-22 | ValidationError gives 400, UnauthorizedError 401, ForbiddenError 403 and NotFoundError 404, whatever `statusCode` the error carries |
| ErrorHandler.ValidationKeepsMessage | api-gateway/middleware/errorHandler.js:10-12 | a ValidationError's message is passed through verbatim, even when empty |
| ErrorHandler.AuthorizationErrorsHideMessage | api-gateway/middleware/errorHandler.js:13-18 | UnauthorizedError gives exactly (401, "Unauthorized: Invalid or expired token") and ForbiddenError exactly (403, "Forbidden: Insufficient permissions"), whatever message the error carries |
| ErrorHandler.NotFoundKeepsMessage | api-gateway/middleware/errorHandler.js:19-21 | NotFoundError gives 404 with the error's message, or "Resource not found" when the message is empty |
| ErrorHandler.EmptyMessageOnlyFromValidation | api-gateway/middleware/errorHandler.js:7-21 | the response message is empty only for a ValidationError with an empty message |
| ErrorHandler.MessageOrigin | api-gateway/middleware/errorHandler.js:6-22 | the message is the error's own message or one of the four fixed defaults |
| ErrorHandler.UnknownNameUsesStatusCode | api-gateway/middleware/errorHandler.js:6-7 | for other names the status is the error's non-zero statusCode, else 500; the message is the error's non-empty message, else "Internal Server Error" |
| Utils.ValidateEmail | frontend/lib/utils.js:38-41 | the scan splits at the first `@`; an accepted address has at least five characters and does not start with `@` (its equivalence with the pattern is `ValidateEmailMatchesPattern`) |
| Utils.ValidateEmailSound | frontend/lib/utils.js:38-41 | an accepted address is local part, `@`, and a domain with a dot that has non-empty text on both sides, none of it containing whitespace or `@` |
| Utils.ValidateEmailComplete | frontend/lib/utils.js:38-41 | every string of that shape is accepted |
| Utils.ValidateEmailMatchesPattern | frontend/lib/utils.js:38-41 | acceptance is equivalent to matching the regular expression, stated as an existential over the split points |
| Utils.AcceptedEmailHasOneAt | frontend/lib/utils.js:38-41 | an accepted address contains exactly one `@`, with non-empty text on each side |
| Utils.ViolationsSpec | frontend/lib/utils.js:43-61 | a rule is reported exactly when the password breaks it, in the order length, uppercase, lowercase, digit, without repeats |
| Utils.Violations | frontend/lib/utils.js:49-61 | at most four rules are broken, and a password that breaks none has at least 8 characters |
| Utils.MessageInjective | frontend/lib/utils.js:49-61 | the four error messages are pairwise distinct, so the error list determines the broken rules |
| Utils.ValidatePassword | frontend/lib/utils.js:43-67 | the loop-built error list equals the messages of the broken rules, has at most four entries, and `isValid` holds iff it is empty iff the password has 8+ characters, an uppercase and a lowercase letter and a digit |
| Utils.PasswordErrorsMembership | frontend/lib/utils.js:49-61 | each message is in the error list iff its rule is broken |
| Utils.Truncate | frontend/lib/utils.js:80-83 | an empty or short enough string is returned unchanged; a longer one becomes its first `length` characters (none for a negative length) followed by `...` |
| Utils.TruncateDefault | frontend/lib/utils.js:80-83 | with the default length 50, a string of at most 50 characters is returned unchanged and a longer one becomes its first 50 characters and `...`, so at most 53 characters |
| Utils.TruncateIdempotent | frontend/lib/utils.js:80-83 | truncating twice with the same length gives the same as once |
| Utils.TruncateLength | frontend/lib/utils.js:80-83 | the result is no longer than the input when that fits, else at most `length + 3` characters |
| Utils.Omit | frontend/lib/utils.js:86-90 | the result's keys are the object's keys minus the listed ones, each with the object's value |
| Utils.Pick | frontend/lib/utils.js:92-100 | the result's keys are the listed keys present in the object, each with the object's value |
| Utils.PickOmitPartition | frontend/lib/utils.js:86-100 | pick and omit by the same keys split the object: disjoint domains whose union, with the values, is the object |
| Trading.Validate | services/trading-service/index.js:154-192 | a request passes exactly when it is well formed; otherwise 400 INVALID_INPUT, with "Missing required fields" whenever team, type, action or a truthy shares is missing; a passing request keeps its team, type, action, shares and price |
| Trading.WellFormed | services/trading-service/index.js:155-192 | a well-formed request has a truthy positive share count, and a well-formed limit request a present, non-zero price |
| Trading.MergedAverage | services/trading-service/index.js:360-363 | the merged average conserves cost (old shares x old average + bought shares x price), lies between the two prices, and is the price when nothing was held |
| Trading.MergedAverageBounds | services/trading-service/index.js:360-363 | the merged average lies between the held average and the order price |
| Trading.NudgedPrice | services/trading-service/index.js:417-423 | a buy multiplies the team price by 1.001 and a sell by 0.999; a non-negative price stays non-negative and moves in the order's direction |
| Trading.Bought | services/trading-service/index.js:355-382 | buying adds the shares to an existing holding under its id, or opens a new holding at the order price; the holding's value is its shares x price |
| Trading.Sold | services/trading-service/index.js:393-414 | selling subtracts the shares; a holding left with more than zero shares keeps its id and average, one at zero or below is deleted |
| Trading.TradingService.PlaceOrder | services/trading-service/index.js:143-452 | the response and the new tables are exactly those of `Place` on the old tables, and the ledger invariant is kept |
| Trading.Place | services/trading-service/index.js:143-452 | the status is one of 201, 400, 401, 403, 404, 500; every response but 201 leaves the ledger as it was; a 201 carries the fresh order id, which is added to the orders and nothing else is |
| Trading.Precheck | services/trading-service/index.js:201-278 | no rejection means the team and the portfolio exist; a rejection is a 403 or a 404 |
| Trading.Commit | services/trading-service/index.js:280-441 | the commit answers 201 or the 500, the 500 leaves the ledger as it was, and a 201 adds exactly the fresh order id to the orders |
| Trading.MarketExecuted | services/trading-service/index.js:303-424 | executing keeps the team and portfolio keys, adds the order as executed, and appends exactly one transaction after the old ones |
| Trading.TradingService.CheckOrder | services/trading-service/index.js:201-278 | the rejection returned is the one `Precheck` gives and nothing changes |
| Trading.TradingService.CommitOrder | services/trading-service/index.js:280-441 | the response and tables are those of `Commit`, rolled back to the snapshot on a failed insert |
| Trading.TradingService.ExecuteMarketOrder | services/trading-service/index.js:303-424 | the tables become those of `MarketExecuted` |
| Trading.TradingService.RecordExecution | services/trading-service/index.js:303-342 | the transaction row with fee 0 and total price x shares is appended, the order becomes executed at the current time, and the cash moves by the total in the order's direction; nothing else in those tables changes |
| Trading.TradingService.NudgeTeamPrice | services/trading-service/index.js:417-423 | only the order's team changes, to `NudgedPrice` of its old price |
| Trading.TradingService.UpdateHolding | services/trading-service/index.js:355-415 | the holdings become those of `Bought` or `Sold` for the key and nothing else changes |
| Trading.TradingService.Rollback | services/trading-service/index.js:439-441 | all tables return to the `BEGIN` snapshot |
| Trading.RejectionChangesNothing | services/trading-service/index.js:147-278 | every 4xx response leaves all tables unchanged |
| Trading.PlacePreservesInvariant | services/trading-service/index.js:143-452 | placing an order keeps team prices and cash non-negative, portfolio ids distinct, every stored holding with positive shares and a non-negative average, every order well formed, and transactions matched one to one with the executed orders |
| Trading.CommitPreservesInvariant | services/trading-service/index.js:280-441 | the commit step keeps the ledger invariant |
| Trading.LimitInsertPreservesInvariant | services/trading-service/index.js:281-300 | inserting a pending limit order keeps the ledger invariant |
| Trading.MarketPreservesInvariant | services/trading-service/index.js:303-424 | executing a checked market order keeps the ledger invariant |
| Trading.RejectionCauses | services/trading-service/index.js:147-278 | each rejection code is returned exactly when its condition holds and every earlier check passed, in the source's order: 401, 400, 404 team, 403 restricted, 404 portfolio, INSUFFICIENT_SHARES for a sale of more than is held, INSUFFICIENT_FUNDS for a market purchase costing more than the cash; the request gets past the checks iff all of them pass |
| Trading.InternalErrorOnlyOnTakenId | services/trading-service/index.js:280-450 | a 500 comes back exactly when a supplied order, transaction or new-holding id is already taken, and then nothing changes |
| Trading.CreatedResponse | services/trading-service/index.js:429-437 | a successful order answers 201 with the order id, status `pending` for both types, the estimated total price x shares and the type's message |
| Trading.LimitOrderEffect | services/trading-service/index.js:281-300 | a limit order only inserts a pending order at the given price that expires one day later; cash, holdings, prices and transactions are untouched |
| Trading.RepeatedLimitOrderNotDeduplicated | services/trading-service/index.js:281-300 | the same limit order sent twice creates two orders |
| Trading.RepeatedMarketOrderNotDeduplicated | services/trading-service/index.js:280-342 | the same market order sent twice and accepted twice is stored as two executed orders with two transaction entries |
| Trading.MarketBuyEffect | services/trading-service/index.js:266-423 | a market buy takes price x shares from cash, which stays non-negative; adds the shares to the holding; raises its cost basis by the amount paid; and raises the price by 0.1%; nothing else changes |
| Trading.MarketSellEffect | services/trading-service/index.js:250-423 | a market sell of at most the held shares credits price x shares; keeps the holding with the same id and average only if shares remain; and lowers the price by 0.1%; nothing else changes |
| Trading.MarketOrderRecorded | services/trading-service/index.js:303-330 | a market order is stored as executed at the current time, and exactly one transaction with fee 0 and total price x shares is appended |
| Trading.WorkedExample | services/trading-service/index.js:143-452 | buying 50 at 10 from 1000 cash and then selling 20 leaves cash 700.2, 30 shares at average 10 and price 9.99999 |
| Trading.DailyChange | services/trading-service/index.js:93-96 | with a positive yesterday value the change is today minus yesterday, otherwise both the change and the percentage are 0 |
| Trading.DailyChangePercentage | services/trading-service/index.js:93-96 | yesterday plus the percentage of yesterday gives today, and the percentage is positive, zero or negative as the value rose, stayed or fell |
| Rewards.ListEligible | services/rewards-service/index.js:52-72 | with a share requirement, eligible iff the user's total shares in the team reach it; else with a hold-days requirement, iff some holding is at least that old; else always |
| Rewards.TotalShares | services/rewards-service/index.js:266-275 | the sum of the user's shares in the team is 0 when the user holds no row of that team |
| Rewards.HeldSince | services/rewards-service/index.js:282-296 | some holding of the user in the team is at least as old as the cutoff; never when the user holds no row of that team |
| Rewards.RedeemEligible | services/rewards-service/index.js:264-301 | a reward whose share and hold-days requirements are both unset or zero is open to every user; a positive share requirement is never met without holdings |
| Rewards.TotalSharesNonNegative | services/rewards-service/index.js:52-58 | the summed shares are non-negative when every holding is |
| Rewards.RedeemEligibleIsListed | services/rewards-service/index.js:52-72 | a reward the redeem handler finds eligible is also listed as eligible, unless it has no share requirement and a 0-day hold |
| Rewards.ListedIsRedeemEligible | services/rewards-service/index.js:264-301 | a reward listed as eligible is redeem-eligible when it has no share requirement or no non-zero hold-days requirement |
| Rewards.ListingIgnoresHoldDaysWhenSharesRequired | services/rewards-service/index.js:52-58 | a reward requiring shares and hold days can be listed eligible for a user whose shares are too recent to redeem it |
| Rewards.ZeroHoldDaysRedeemableButNotListed | services/rewards-service/index.js:59-69 | a reward with no share requirement and a 0-day hold is redeem-eligible for a user without holdings but listed as not eligible |
| Rewards.ActiveAndUpcomingDisjoint | services/rewards-service/index.js:81-95 | no reward is both in the active listing and in the upcoming listing |
| Rewards.ActiveFilter | services/rewards-service/index.js:91-92 | a reward in the active listing is switched on, in stock and already started |
| Rewards.UpcomingFilter | services/rewards-service/index.js:93-94 | a reward in the upcoming listing is switched on and not in the active listing |
| Rewards.ListFilterStatus | services/rewards-service/index.js:80-95 | the status filter only narrows the team and type filters; `active` and `upcoming` select disjoint rows; any other status filters nothing, so no team, type `all` and such a status list every reward |
| Rewards.DisplayStatus | services/rewards-service/index.js:459 | a redeemed reward whose expiry has passed is shown as expired, otherwise with its stored status |
| Rewards.RedeemedFiltersMatchDisplay | services/rewards-service/index.js:408-413 | the `active` filter selects exactly the rows displayed as redeemed; the `expired` filter selects only rows displayed as expired, and all of them among rows stored as redeemed or expired; no row passes both |
| Rewards.RedeemedActiveFilter | services/rewards-service/index.js:409-410 | every row the `active` filter keeps is displayed as redeemed |
| Rewards.RedeemedExpiredFilter | services/rewards-service/index.js:411-412 | every row the `expired` filter keeps is displayed as expired, and is not kept by the `active` filter |
| Rewards.Offset | services/rewards-service/index.js:41 | the offset of a positive page and a non-negative limit is non-negative |
| Rewards.OffsetsAdjacent | services/rewards-service/index.js:41 | consecutive pages start `limit` rows apart |
| Rewards.TotalPages | services/rewards-service/index.js:134-135 | with a positive limit the page count is the ceiling of items / limit; otherwise no count |
| Rewards.PagesCoverItems | services/rewards-service/index.js:134-135 | every item index falls on a page between 1 and the page count, inside that page's offset window |
| Rewards.RedemptionCodeShape | services/rewards-service/index.js:312 | the code is the upper-cased first three characters of the team name, a dash and the upper-cased suffix |
| Rewards.RedemptionCode | services/rewards-service/index.js:312 | the code is at most three characters of the team name, a dash at that position, then the suffix, so its length is theirs plus one |
| Rewards.ExpiresAt | services/rewards-service/index.js:315-321 | the expiry is 30 days after redemption, or the reward's end date when that comes first |
| Rewards.RewardsService.RedeemReward | services/rewards-service/index.js:175-378 | the response and the new store are exactly those of `Redeem` on the old store, and the store invariant is kept |
| Rewards.Redeem | services/rewards-service/index.js:175-378 | the status is one of 200, 401, 403, 404, 409, 500; every refusal leaves the store as it was; a success carries the fresh redemption id, which is added to the redemptions and nothing else is |
| Rewards.Precheck | services/rewards-service/index.js:193-309 | no refusal means the reward and its team exist; a refusal is a 403, 404 or 409 |
| Rewards.Commit | services/rewards-service/index.js:311-377 | the commit answers success or the 500, the 500 leaves the store as it was, and a success adds exactly the fresh redemption id and takes one from the reward's stock |
| Rewards.RewardsService.CheckRedemption | services/rewards-service/index.js:193-309 | the refusal returned is the one `Precheck` gives and nothing changes |
| Rewards.RewardsService.CommitRedemption | services/rewards-service/index.js:311-377 | the store and response are those of `Commit`, rolled back to the snapshot on a failed insert |
| Rewards.RewardsService.Rollback | services/rewards-service/index.js:365-368 | the store returns to the `BEGIN` snapshot |
| Rewards.RedeemPreservesInvariant | services/rewards-service/index.js:175-378 | redemption keeps stock non-negative, at most one redemption per user and reward, expiries within 30 days of redemption, and every activity pointing at a stored redemption |
| Rewards.RefusalCauses | services/rewards-service/index.js:179-309 | each refusal is returned exactly under its condition, in the source's order: 401, 404, inactive, not started, expired, out of stock, already redeemed, not eligible; any refusal changes nothing |
| Rewards.RedeemEffect | services/rewards-service/index.js:323-364 | a successful redemption stores one redeemed row with the code and expiry, decrements the reward's stock by one, appends one `reward_redemption` activity, and answers 200 with the same code and expiry |
| Rewards.RedeemExpiryBounds | services/rewards-service/index.js:315-321 | the stored expiry lies after the redemption time, within 30 days of it, and not after the reward's end date |
| Rewards.RedeemCode | services/rewards-service/index.js:312 | the returned and stored code is built from the team's name and the suffix |
| Rewards.RedeemAtMostOnce | services/rewards-service/index.js:246-261 | once a user has redeemed a reward, any later request by that user for the same reward is refused |
| Rewards.RedeemConservesStock | services/rewards-service/index.js:338-342 | remaining stock plus the reward's redemptions is the same before and after any redeem call |
| Rewards.ActiveFilterIsRedeemWindow | services/rewards-service/index.js:91-92 | a reward in the active listing passes the redeem handler's active, started and not-expired checks |

## Left out

- JSON inputs of the wrong type (a string `shares`, an object as an email) are not modelled. Every field has its documented type, and a missing field is `None` or the empty string.
- Floating-point arithmetic and `parseFloat` are not modelled. Money, prices and shares are exact reals, so rounding in `price * 1.001` and in the average is not captured.
- Trading.Place: requires that no stored holding has negative shares, an invariant the ledger keeps. With a negative holding, the merged average could divide by zero, which JavaScript turns into Infinity or NaN, and a real cannot hold those.
- Rewards.TotalPages: returns no count for a limit of zero or less. JavaScript yields Infinity or NaN there, and PostgreSQL rejects a negative LIMIT.
- A `required_shares` value is taken as numeric, as the column's type makes it. The `parseFloat` of the redeem handler is therefore the identity.
- The listings' sorting, LIMIT/OFFSET slicing, joins and column projection are not modelled. Only their filters, eligibility and status columns are.
- Concurrency between requests, isolation levels and row locking are not modelled. Each handler runs atomically on the state.
- Database failures other than an id collision are not modelled. A taken uuid is the one modelled cause of the 500 path. The same holds for `created_at`/`updated_at` columns.
- `setDate` across a daylight-saving change is not modelled. A day is exactly 86 400 000 ms.
- `toUpperCase` is modelled for ASCII letters only, and `length`/`substring` count characters rather than UTF-16 code units.
- `Math.random` and uuid generation are inputs to the handlers, and the suffix is taken as given, whatever its length.
- `pick` looks keys up with `in`, which also sees inherited prototype properties. The model sees own keys only.
- Logging through `console.error` and the rest of the portfolio endpoint are not modelled. Only its daily change arithmetic is.
