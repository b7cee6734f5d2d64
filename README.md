# bittrader core, modelled in Dafny

bittrader is a small Binance trading bot. The model covers four parts of it:
- **Signals.** The client library turns candle series into buy and sell signals, from an RSI crossover combined with a Bollinger band touch.
- **Utilities.** Padding, grouping and money formatting helpers.
- **Record store.** It holds the configuration, the orders and the price snapshots.
- **`init`.** The command that validates and saves the configuration.

The model keeps each part in the form the JavaScript has:
- **Pure logic** becomes functions with lemmas: the indicator gates, the buy/sell rule, padding and digit grouping.
- **Loops** become methods with loop invariants, each proved against a specification function:
  - the backward resampling walk;
  - the numerator and period loops of `getSignals`;
  - the balance search;
  - the per-pair trade sort;
  - `arrayToObject`;
  - the two loops of `getPairs`. The first copies the newest snapshot's prices. The second stamps each row with its utc. Setting `utc` apart from the prices, which the source's first loop does, happens when `savePair` stores the snapshot (`Database.WithoutUtc`).
- **The store** is a class whose methods update its fields in place.
- **`init`** is a method that updates its options object and the store.

Modules:
- `Common`: `Option`.
- `Lists`:
  - lodash's stable `sortBy` (an insertion sort proved ascending, a permutation, and stable per key), `reverse` and `filter`;
  - the "last of the maxima" lemma that `getPairs` relies on.
- `Util`: libraries/util.js.
- `Client`: libraries/client.js.
- `Database`: libraries/database.js.
- `Cli`: `init` in bin/cli.js.

The RSI and Bollinger computations come from an external indicator library. They are parameters of type `seq<real> -> seq<real>` and `(seq<real>, real) -> seq<Band>`. Only the length gates around them and the rule applied to their outputs are modelled.

Exchange data are inputs: candles, balances and trades. So are:
- the clock reading that stamps records (`now`, `time`);
- whether the exchange answers (`apiReachable`);
- the cron validator (`validate`).

Candle field 3 is what `getSignals` collects. In ccxt's `[timestamp, open, high, low, close, volume]` layout that is the low, not the closing price that descriptions of the bot speak of. The model follows the code and names the field `low`.

## Model

| member | source | states |
|---|---|---|
| Client.CalculateRSI | libraries/client.js:24-31 | yields indicator values exactly when given 16 values, and they are the indicator's output on them |
| Client.CalculateBB | libraries/client.js:33-41 | yields bands exactly when given 20 values, computed with the given deviation |
| Client.Timeframes | libraries/client.js:137-155 | five timeframes; every inHour and period is at least 1; every period*20*inHour is at most the fetch limit of 1000; RSI low is below RSI high; each later row lowers the deviation by 0.1 and raises the RSI low by 1 |
| Client.TimeframesAscend | libraries/client.js:137-155 | every configured period list ascends strictly |
| Client.AscendingDistinct | libraries/client.js:137-155 | a strictly ascending period list has no repeated period, so each timeframe meets the premise of the distinctness lemmas |
| Client.WindowIndexBounds | libraries/client.js:100-107 | with stride s >= 1 and 20*s <= len, the 20 visited indices len-1-k*s are in bounds and strictly ascending, and the last one is the newest candle |
| Client.Window | libraries/client.js:103-107 | the window always has exactly 20 values; Client.CollectLasts proves that the source's loop collects exactly this window |
| Client.CollectLasts | libraries/client.js:100-106 | the backward walk with unshift collects exactly the field-3 values at indices len-1-(19-k)*s in chronological order, and their timestamps, 20 of each |
| Client.WindowPassesGates | libraries/client.js:107-110 | inside the length gate, RSI always gets the 16 newest window values and the bands get all 20, so both gates pass |
| Client.ReadingsPresent | libraries/client.js:111 | the guard fails whenever the price is zero or either indicator gate failed |
| Client.BuyRule | libraries/client.js:118 | a buy is an upward RSI crossing with the price at or below the lower band |
| Client.SellRule | libraries/client.js:120 | a sell is a downward RSI crossing with the price at or above the upper band |
| Client.Evaluate | libraries/client.js:107-127 | one window yields a record iff the guard passes and the buy or the sell rule holds on its readings; the record carries the window's newest value, the first two RSI readings and the first band's lower and upper values, and satisfies the rule for its direction |
| Client.PeriodSignal | libraries/client.js:100-128 | a too-short series gives no record; a record is for this pair, period and time, is priced at the newest candle's field 3, has exactly one direction, has buy iff the buy rule held, and has sell only if the sell rule held; its rsipre, rsilast, bblower and bbupper are the indicator readings on the window |
| Client.PeriodsSignals | libraries/client.js:98-131 | every record of one pair names that numerator and one of the given periods |
| Client.AllSignals | libraries/client.js:94-131 | every record names one of the numerators and one of the timeframe's periods |
| Client.PeriodSignalEmitted | libraries/client.js:107-127 | inside the length gate, a record is emitted iff the truthiness guard passes and the buy or the sell rule holds on the window's readings |
| Client.RulesExclusive | libraries/client.js:112-122 | buy and sell never both hold when RSI low < RSI high, as in every configured timeframe |
| Client.BuyExample | libraries/client.js:118-122 | a worked crossover: RSI 29→31 over a threshold of 30 with the lower band at or above the price is a buy; a band below the price is not |
| Client.GetSignals | libraries/client.js:91-135 | the nested numerator and period loops produce exactly the numerator-major, period-ordered sequence of the records each period emits |
| Client.PeriodCheck | libraries/client.js:99-127 | the body of the period loop returns exactly the record `PeriodSignal` specifies for that period, or none |
| Client.AllSignalsFired | libraries/client.js:94-128 | every produced record satisfies the rule and guard for its timeframe |
| Client.PeriodsSignalsFired | libraries/client.js:98-128 | the same for the records of one pair |
| Client.AllSignalsAppend | libraries/client.js:94-98 | output is numerator-major: the signals for two lists of pairs are the first list's followed by the second's |
| Client.AllSignalsCount | libraries/client.js:94-131 | there are at most as many records as pairs times periods |
| Client.PeriodsSignalsCount | libraries/client.js:98-131 | one pair gets at most as many records as there are periods |
| Client.PeriodsSignalsDistinct | libraries/client.js:98-128 | with distinct periods, no two records of one pair share a period |
| Client.AllSignalsDistinct | libraries/client.js:94-128 | with distinct numerators and distinct periods, no two records share both pair and period: at most one record per pair and period |
| Client.NumeratorBalance | libraries/client.js:43-50 | the free amount of the first balance whose asset matches, or 0 when none matches |
| Client.GetTrades | libraries/client.js:171-181 | one entry per numerator in input order, with symbol numerator+denominator and pair numerator+"/"+denominator; its trades are a permutation of the fetched ones, sorted newest first; the order is `Lists.SortBy` by descending timestamp, which is stable |
| Util.ArrayJoinCopies | libraries/util.js:39 | `new Array(n).join(c)` is n-1 copies of c (none for n = 0) |
| Util.Length | libraries/util.js:39 | `str.length` counts UTF-16 code units: between one and two per character |
| Util.LengthAppend | libraries/util.js:39 | the length of a concatenation is the sum of the lengths |
| Util.LengthRepeat | libraries/util.js:39 | k copies of f are k times f's length |
| Util.Fill | libraries/util.js:39 | `c \|\| ' '`: the fill is c, or a space when c is empty, and never empty |
| Util.PadRight | libraries/util.js:37-40 | str followed by max(0, max - str.length) copies of the fill, the length counted in UTF-16 code units |
| Util.PadLeft | libraries/util.js:42-45 | the same number of fill copies, then str |
| Util.PadCenter | libraries/util.js:47-51 | max(0, floor((max - str.length + 1)/2) - 1) fill copies on each side of str |
| Util.PadNeverTruncates | libraries/util.js:37-51 | padding keeps str intact; str comes back unchanged when its length already reaches max (max-1 for padCenter) |
| Util.PadWidth | libraries/util.js:37-45 | with a one-unit fill and str.length <= max, padRight and padLeft have length exactly max |
| Util.PadCenterWidth | libraries/util.js:47-51 | with a one-unit fill and str.length < max, padCenter has length max-1 for an odd difference and max-2 for an even one |
| Util.PadCenterLength | libraries/util.js:47-51 | with a one-unit fill, padCenter's length is str.length plus two sides of floor((max - str.length + 1)/2) - 1 units each |
| Util.PadRightAstral | libraries/util.js:37-40 | a character outside the Basic Multilingual Plane is two units long, so padRight of it to 4 appends two spaces |
| Util.CenterHalves | libraries/util.js:49-50 | for a shortfall d >= 1, the two sides of padCenter together get d-1 copies when d is odd and d-2 when d is even |
| Util.GroupByThrees | libraries/util.js:31 | the grouping regex keeps the first digit in front; its group structure is proved in Util.GroupByThreesGroups |
| Util.GroupThousands | libraries/util.js:29-31 | the grouped integer part starts with the integer part's first digit; the round trip and group sizes are proved in Util.GroupThousandsGroups |
| Util.GroupByThreesGroups | libraries/util.js:31 | on a digit string whose length is a multiple of 3, splitting at the separator gives groups of exactly 3 that concatenate back to the digits |
| Util.GroupThousandsGroups | libraries/util.js:29-31 | removing the separators gives the digit string back; the first group has 1 to 3 digits and every later group 3 |
| Util.LeadingGroup | libraries/util.js:29-31 | when the digit count is not a multiple of three, the leading digits form a first group of one or two and the rest split into threes, losing no digit |
| Util.FormatIntegerPart | libraries/util.js:26-31 | the formatted integer part starts with "-" iff the amount is negative |
| Util.Split | bin/cli.js:35 | `split` always yields at least one part, and no part contains the separator; Util.SplitAt and Util.SplitNoSeparator give its value on a separated string |
| Util.SplitNoSeparator | bin/cli.js:35 | a string without the separator splits into itself alone |
| Util.SplitAt | bin/cli.js:35 | a separator after a separator-free prefix splits off exactly that prefix |
| Util.ArrayToObject | libraries/util.js:53-66 | the output's keys are exactly the keys of all items, and each key maps to its values in item order |
| Util.AddEntries | libraries/util.js:57-63 | the inner loop over one record's entries adds that record's keys, and appends its values under each key after the values already collected |
| Util.ValuesOfAbsent | libraries/util.js:53-66 | a key no item has collects no values |
| Util.ArrayToObjectCount | libraries/util.js:53-66 | the number of collected values equals the number of item entries |
| Lists.Select | libraries/database.js:21 | filter never yields more elements than it is given |
| Lists.SelectMembers | libraries/database.js:21 | filter keeps every matching element and only matching ones |
| Lists.SelectAppend | libraries/database.js:21 | filter keeps order: filtering a concatenation concatenates the filtered parts |
| Lists.SelectOne | libraries/database.js:21 | a single element is kept exactly when it matches, so with Lists.SelectAppend the result is the matches in input order |
| Lists.Reverse | libraries/database.js:21-22 | reverse has the same length, and element i is the input's element \|s\|-1-i |
| Lists.SortBy | libraries/database.js:21-22 | sortBy yields a permutation in ascending key order |
| Lists.SortByStable | libraries/database.js:21-22 | sortBy is stable: the elements with any one key keep their relative order |
| Lists.ReverseWithKey | libraries/database.js:21-22 | reversing reverses the order among the elements with any one key |
| Lists.SortByLast | libraries/database.js:34 | the last element after sortBy is the last-inserted element with the greatest key |
| Database.Stamped | libraries/database.js:24-25 | a saved order carries `utc` = now, keeps its other fields, and gains no field besides `utc`; it has a `buy` field among its fields iff the order had one |
| Database.Merged | libraries/database.js:28-30 | the merge takes the patch's fields over the order's, keeps the order's other fields, and adds `_utc` = now; its fields stay free of `buy` iff neither the order's nor the patch's have one |
| Database.FindIndex | libraries/database.js:17-18 | the index of the first matching element, or none when nothing matches |
| Database.Retained | libraries/database.js:48-49 | keeps exactly the snapshots with utc >= now - time |
| Database.RetainedIdempotent | libraries/database.js:48-49 | a second retention with the same cutoff removes nothing |
| Database.Rows | libraries/database.js:37-41 | one row per price, in field order, each carrying the snapshot's utc |
| Database.WithoutUtc | libraries/database.js:37-39 | a snapshot's rows come from its non-`utc` fields only |
| Database.WithoutUtcOrder | libraries/database.js:37-39 | the non-`utc` fields keep their field order: dropping `utc` distributes over concatenation and keeps a single field iff it is not `utc` |
| Database.Matching | libraries/database.js:21-22 | without a filter all orders are considered; with one, exactly the matching orders |
| Database.Store.constructor | libraries/database.js:8 | the store starts with empty configuration; the two tables start present and empty |
| Database.Store.SaveConfig | libraries/database.js:11-16 | sets exactly key, secret, currency and expression; other configuration and both tables are unchanged |
| Database.Store.GetOrder | libraries/database.js:17-19 | the first matching order, or none exactly when no order matches |
| Database.Store.GetOrders | libraries/database.js:20-23 | the matches (all orders without a filter) as a permutation, by `buy` descending, with equal-`buy` orders in reverse insertion order |
| Database.Store.SaveOrder | libraries/database.js:24-27 | appends the stamped order at the end; earlier orders and the rest of the store are unchanged; every stored order keeps `buy` apart from its other fields |
| Database.Store.UpdateOrder | libraries/database.js:28-31 | merges the stamped patch into the first match only; no match changes nothing; every stored order keeps `buy` apart from its other fields |
| Database.Store.GetPairs | libraries/database.js:32-43 | an empty table gives []; otherwise one row per price of the last-inserted snapshot with the greatest utc |
| Database.Store.SavePair | libraries/database.js:44-47 | appends the snapshot stamped with now |
| Database.Store.RemovePairs | libraries/database.js:48-50 | the table becomes exactly the snapshots with utc >= now - time, in their order |
| Database.TiesReversed | libraries/database.js:20-23 | after a stable sort and a reverse, orders with equal `buy` are in reverse insertion order |
| Cli.CurrencyAccepted | bin/cli.js:35 | an accepted currency never contains the list's separator |
| Cli.CurrencyAcceptedExactly | bin/cli.js:22-38 | a currency is in the accepted list iff it is exactly "USDT" or "TRY" |
| Cli.TrimStart | bin/cli.js:43-44 | `parseInt` skips exactly the leading white space |
| Cli.DigitPrefix | bin/cli.js:43-44 | `parseInt` reads the longest run of digits that follows |
| Cli.ParseDigits | bin/cli.js:43-45 | a number is read iff a digit comes first; otherwise the result is NaN |
| Cli.ParseInt | bin/cli.js:43-44 | `Number.parseInt(s, 10)` yields a number only when s contains a digit |
| Cli.ParseDigitsOf | bin/cli.js:43-44 | digits followed by a non-digit read as the value of those digits |
| Cli.ParseIntNoLeadingSpace | bin/cli.js:43-44 | a text that does not start with white space is read sign-and-digits as it stands |
| Cli.ParseIntNegative | bin/cli.js:43-44 | `parseInt` reads `String(-m)` followed by a non-digit back as -m |
| Cli.ParseIntNatural | bin/cli.js:43-44 | `parseInt` reads `String(m)` followed by a non-digit back as m |
| Cli.ParseIntSigned | bin/cli.js:43-44 | `parseInt` reads back the decimal string of any integer and stops at the first non-digit |
| Cli.ParseIntSkipsSpace | bin/cli.js:43-44 | leading white space does not change the parsed value |
| Cli.ParseIntNoDigits | bin/cli.js:43-45 | a text without digits parses to NaN |
| Cli.WholeInRange | bin/cli.js:43-56 | a numeric ratio, such as the default 5, parses to itself and passes iff 2 <= n <= 20 |
| Cli.CheckInit | bin/cli.js:27-57 | an unreachable exchange is reported first, whatever the other options; a save requires every later check to pass |
| Cli.CheckInitSavesIff | bin/cli.js:27-57 | init saves iff the exchange answers, the currency is USDT or TRY, the expression is valid, and both ratios parse into [2, 20] |
| Cli.CheckInitCurrency | bin/cli.js:35-38 | once the exchange answers, the currency check rejects exactly the currencies other than USDT and TRY |
| Cli.CheckInitRatios | bin/cli.js:43-56 | stop loss is rejected iff out of range; target gain is rejected iff stop loss passed and target gain is out of range |
| Cli.DefaultsAccepted | bin/cli.js:100-105 | with a reachable exchange and a valid expression, USDT with ratios of 5 is saved |
| Cli.InitArgs.constructor | bin/cli.js:98-105 | the options object holds the given options |
| Cli.Init | bin/cli.js:27-59 | runs the checks in order and stops at the first failure, with the outcome CheckInit gives; stop loss is written back as a number once it passes, target gain only on success; configuration is saved once, only on success, without the ratios |
| Cli.InitAsWritten | bin/cli.js:28-34 | as written, every run stops at the exchange check and changes nothing |
| Cli.DefaultsRejectedAsWritten | bin/cli.js:28-34 | the default options are rejected as written but saved by the corrected check |

## Left out

- Indicator arithmetic: RSI and Bollinger bands come from an external library and use floating point. They are uninterpreted parameters.
- Exchange I/O: ccxt construction, `fetchOHLCV`, `fetchBalance`, `fetchMyTrades` and order placement. The fetched data are inputs.
- `getBalances`: it values balances by multiplying floats with fetched prices.
- `buy` and `sell`: they compare an un-awaited Promise with numbers, so their gate is never passed in the source, and they only place exchange orders.
- `timeToDate` depends on the local time zone. It also writes the month from `getMonth()` without the +1 that public/main.js adds.
- `isValidTimeZone` depends on `Intl`.
- formatMoney's decimal part uses floating-point `toFixed`. Only the sign prefix and the grouping of the integer digit string are modelled.
- lowdb persistence (`db.json`, `write`, `read`) is not modelled: the store is in memory.
- Database.Store.constructor: the model starts with both tables present and empty. `db.defaults` in the source creates only `config`. Until `orders` or `pairs` exists in the file, lodash's chained `push` pushes into a fresh array, so `saveOrder` and `savePair` store nothing. Reads of a missing table behave as reads of an empty one.
- Database.Store.RemovePairs: the source reads the clock again for each snapshot it tests. The model uses one reading, `now`, for the whole pass.
- Object identity: `saveOrder`, `updateOrder` and `savePair` also stamp the caller's object. `getOrder` returns the stored object itself. The model works on values.
- Client.ReadingsPresent: a number is truthy in JavaScript iff it is neither 0 nor NaN. NaN has no counterpart among the reals, so the guard is modelled as `x != 0`.
- Database.Store.SaveOrder, Database.Store.UpdateOrder: an order's `buy` is its own field in the model, so these take orders and patches whose other fields hold no `buy` key. A JavaScript object has a single `buy` property, so no source input is excluded.
- Database.Store.GetOrders: it takes `buy` as a number present on every order. lodash's placement of missing or non-numeric `buy` values is not modelled.
- Database.Store.GetPairs: a snapshot's prices are a sequence of named entries in insertion order. JavaScript's ordering of integer-like keys first does not arise for pair names and is not modelled.
- Util.ArrayToObject: items are sequences of entries. Inherited prototype keys and array-valued entries (which `concat` would spread) are not modelled.
- Cli.ParseInt: `String(n)` of a number is modelled for integers only. Exponent notation for very large numbers is not modelled.
- Cli.Init: `cron.validate` and the exchange check are inputs. Console messages, commander parsing and the pm2 `start`/`stop`/`restart` commands are not modelled.
- Ruler-style threshold selection by signal history, an order state machine, fill polling, retries and an overlap guard are not in these files, so they are not modelled.

## Findings

| source | as written | input that shows it | evidently intended | confidence | as-written member | corrected member |
|---|---|---|---|---|---|---|
| bin/cli.js:29 | `init` awaits `client.getAccountBalance`, which libraries/client.js does not export (its exports are listed at libraries/client.js:184-194); the call throws inside the `try`, so every run reports "cannot access api" and returns before saving | `bittrader init -k K -s S` with default options and working credentials | probe the account (for instance through `getBalances` with the given key and secret) and go on with the checks when it answers | not executed | Cli.InitAsWritten | Cli.Init |
