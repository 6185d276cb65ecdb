# Adjacent-strike spread scanner and paper two-leg execution

This project models the core of a crypto-options arbitrage bot (`app.py`) in Dafny. It covers two parts.

**The opportunity scanner.** `UltraFastArbitrageEngine` takes a quote snapshot (symbol → quote dictionary) and does the following:
- reads each symbol's strike from its dash-separated tokens;
- files the quote into a per-strike `{call, put}` bucket by a substring test;
- walks adjacent strikes in ascending order, testing a CALL spread and then a PUT spread for each pair against the asset's premium cap and minimum profit;
- returns the three most profitable spreads, using a stable sort.

**The paper execution path.** `UltraFastOrderExecutor` runs one trade:
- sizes it as `min(buy_qty, sell_qty, MAX_LOTS_PER_TRADE)`;
- sells, with a partial fill drawn from a fixed menu;
- buys exactly the sold quantity through an escalation scenario (instant, one increment, raise to the sell price, or abandon);
- records an append-only execution log;
- computes the realised P&L.

The two random draws (`random.choices`) are explicit arguments: a `FillDraw` (which menu entry) and a `BuyScenario`. With those fixed, every path is deterministic.

Modules:

- `Optional` (`optional.dfy`): `Option`, which stands for absent dictionary keys, empty slots and `None` results.
- `Symbols` (`symbols.dfy`):
  - `split('-')` and its inverse `Join`;
  - strike tokens, and `extract_strike`;
  - the `'C-'` / `'P-'` substring classification.
- `Buckets` (`buckets.dfy`): `Quote`, `Bucket`, and `group_options_by_strike` as a left fold over the snapshot in dictionary order.
- `Scanner` (`scanner.dfy`):
  - the two spread checks;
  - the candidate list;
  - `sorted(strikes.keys())`;
  - the stable descending sort;
  - the top three.
- `Timeline` (`timeline.dfy`): `TimelineTracker` as an immutable log of actions.
- `Execution` (`execution.dfy`):
  - the sell leg and the buy sequence;
  - `execute_arbitrage_trade`;
  - the P&L;
  - the built-in parameter defaults.
- `Scenarios` (`scenarios.dfy`): worked examples and consequences of the literal symbol rules.

Behaviour kept exactly as written in the source:

- **Classification is a substring test.**
  - `'C-' in symbol` is tested before `'P-' in symbol`.
  - A symbol shaped like `ETH-3500-C` contains neither substring. It still creates a bucket for its strike, but the bucket stays empty, so the ETH sample snapshot never yields an opportunity.
  - Every `BTC-…` symbol contains `C-` (inside `BTC-`), so BTC puts overwrite BTC calls in the call slot and no PUT spread is ever produced for BTC.
- **Strike tokens must have at least three digits.** In `C-X-50-310125` the first qualifying token is the expiry, so the strike read is 310125. A token `000` qualifies and reads as 0, which is then not bucketed.
- **A sell timeout never happens.** The paper sell fill is clamped to at least one lot, and the live path fills in full. The `filled_qty < 1` branch is modelled, and `ExecuteTrade` proves it is never taken.
- **The increment tier is not clamped.** The buy sequence quotes `original + increment` without comparing it to the sell price. When the increment exceeds the spread's margin, that tier pays more than the sell price, and the next tier lowers the price to the sell price. `IncrementCanPassSellPrice` exhibits this. `BuyEscalationBounded` proves that prices never decrease and stay at or below the sell price when `0 <= increment <= sell - buy`. The bound is sufficient, not necessary: an instant fill or a live order quotes only the original price, whatever the increment. The built-in defaults satisfy that bound (`DefaultTradesNeverLose`).

Further behaviour of the code that the model keeps:

- One sell→buy cycle per trade; the sell fill is drawn once from the menu, not polled.
- The scan returns at most three opportunities (`[:3]`).
- Quotes are not filtered by expiry or price; a missing or non-positive premium simply fails the `> 0` tests of the spread checks.

## Model

| member | source | states |
|---|---|---|
| Symbols.Split | app.py:196 | `split('-')` always returns at least one part, and no part contains a dash |
| Symbols.JoinSplit | app.py:196 | joining the parts of a split with dashes gives back the original symbol |
| Symbols.SplitJoin | app.py:196 | splitting a dash-join of dash-free parts gives back exactly those parts (the inverse direction) |
| Symbols.DigitsValueDecimal | app.py:199 | `int(str(n)) == n` for every n ≥ 0: reading the decimal text of a number ("0" for zero, no leading zeros otherwise) gives the number back |
| Symbols.FirstStrikeSpec | app.py:197-200 | the token loop returns the value of the first all-digit token longer than two characters, or 0 when there is none |
| Symbols.ExtractStrikeSpec | app.py:194-202 | `ExtractStrike` (`extract_strike`) returns 0 when no part is a strike token; otherwise it returns the value of the first such part, and that part exists |
| Symbols.StrikeRoundTrip | app.py:194-202 | a symbol made of non-strike tokens, then a strike of at least three digits, then any tokens, parses back to exactly that strike |
| Symbols.HasPairSpec | app.py:188-190 | the two-character substring test is true exactly when some position holds the first character followed by the second |
| Symbols.ClassifySpec | app.py:188-191 | `Classify`: a symbol is filed as a call exactly when it contains `C-`, as a put exactly when it contains `P-` but not `C-`, and nowhere otherwise |
| Symbols.BtcIsAlwaysCall | app.py:188-189 | every symbol beginning `BTC-` is filed in the call slot, whatever follows |
| Symbols.TrailingTypeLetterIsNeverFiled | app.py:188-191 | `<asset>-<digits>-C` and `<asset>-<digits>-P` with no C or P in the asset are filed in neither slot |
| Buckets.GroupKeys | app.py:180-192 | `Group` (`group_options_by_strike`): the bucket keys are exactly the positive strikes of the snapshot's symbols, including symbols filed in neither slot |
| Buckets.GroupSlotEmpty | app.py:185-191 | a strike's call (put) slot is empty exactly when no symbol of that strike is filed as a call (put) |
| Buckets.GroupSlotIsLastFiled | app.py:185-191 | a slot holds the quote of the last entry in dictionary order filed there; later entries overwrite earlier ones |
| Scanner.Spread | app.py:131-151 | a spread is emitted exactly when both premiums are positive, both are within the cap, and the margin meets the minimum; it then carries those premiums, profit = sell − buy, the two quotes' symbols, and quantities defaulting to 100 |
| Scanner.SpreadDirection | app.py:128-178 | `CheckCall` and `CheckPut`: CALL buys the lower strike's call ask and sells the upper strike's call bid; PUT buys the upper strike's put ask and sells the lower strike's put bid; each holds exactly when the thresholds pass |
| Scanner.EmptySlotYieldsNothing | app.py:131-160 | a missing call or put slot on either strike yields no spread of that kind |
| Scanner.Candidates | app.py:112-124 | every candidate is valid and built from two neighbouring strikes |
| Scanner.CandidatesComplete | app.py:112-124 | every passing CALL or PUT check on a neighbouring pair is among the candidates |
| Scanner.CandidatesInLoopOrder | app.py:112-124 | over ascending strikes the candidates come pair by pair in strike order, and within a pair the CALL result precedes the PUT result |
| Scanner.CandidatesComeFromChecks | app.py:112-124 | every candidate is exactly the result of the CALL or the PUT check on its own strike pair |
| Scanner.SortDistinct | app.py:110 | the strike list is strictly ascending and holds exactly the input strikes |
| Scanner.SortedKeysAreBucketKeys | app.py:109-110 | the strikes walked are exactly the bucket keys, ascending and without repeats |
| Scanner.InsertAddsOne | app.py:126 | inserting one opportunity into the list adds exactly that element (multiset) |
| Scanner.InsertKeepsSorted | app.py:126 | inserting into a list sorted by descending profit keeps it sorted |
| Scanner.SortByProfit | app.py:126 | the sorted list is a permutation of the candidates, in non-increasing profit order |
| Scanner.SortKeepsTies | app.py:126 | the sort is stable: for every profit level, the opportunities of that profit appear in the same order as in the candidate list |
| Scanner.TopThree | app.py:126 | `[:3]` of a list sorted by descending profit keeps min(3, n) of its elements (a sub-multiset), stays sorted, and every dropped element is at most as profitable as every kept one |
| Scanner.Scan | app.py:106-126 | the scan returns min(3, #candidates) valid opportunities from neighbouring strikes, sorted by profit, forming a sub-multiset of the candidates; every candidate left out is at most as profitable as every one returned |
| Scanner.ScanDropsLaterTies | app.py:112-126 | at the cut-off, a candidate left out with the same profit as a returned one comes later in loop order (later strike pair, or the PUT after the CALL of the same pair) |
| Scanner.ScanTiesInLoopOrder | app.py:112-126 | among scan results of equal profit, an earlier strike pair comes first, and on the same pair the CALL spread precedes the PUT spread |
| Scanner.NothingFiledNoOpportunity | app.py:184-191 | when no symbol names a slot, all buckets are empty and the scan is empty |
| Scanner.AllCallsOnlyCallSpreads | app.py:157-160 | when every symbol is filed as a call, the scan contains only CALL spreads |
| Timeline.AddStep | app.py:62-68 | `add_step` adds exactly one entry at the end and keeps every earlier entry in place |
| Timeline.Combine | app.py:334-335 | the combined log is the sell log followed by the buy log |
| Execution.SellWithPartialFill | app.py:209-237 | for an order of q ≥ 1 lots the fill is between 1 and q. In paper mode the fill is the drawn menu entry (q, q−1, q−2, q−3 or int(0.7q)) when that entry is at least 1, and 1 otherwise; in live mode it fills q |
| Execution.LargeOrderNeverClamped | app.py:215-220 | for an order of at least 5 lots every menu entry is at least 2, so the paper fill is exactly the drawn entry |
| Execution.SellLog | app.py:213-237 | the paper log is the order followed by the full fill, or by the partial fill and the cancelled remainder; the live log is empty; every entry is a sell event |
| Execution.BuySequence | app.py:239-289 | only a paper abandon fails. The final price is the original (instant or live), original + increment (adjustment), or the sell price (match or abandon) |
| Execution.BuyQuoteCount | app.py:243-289 | the buy sequence quotes one price for the order plus one per repricing: no repricing live or on an instant fill, one on an adjustment, two on a match or an abandonment |
| Execution.BuyLog | app.py:243-289 | the buy log starts with the order for q, names no quantity other than q, contains no sell event, and in paper mode ends with the fill at the final price or the abandonment |
| Execution.BuyEscalationBounded | app.py:244-287 | if 0 ≤ increment ≤ sell − original, the quoted prices never decrease, stay ≤ the sell price, and the final price is the last one quoted |
| Execution.IncrementCanPassSellPrice | app.py:259-276 | counterexample: buying at 1.50 and selling at 1.55 with increment 0.10, the adjustment fills at 1.60, above the sell price, and the match tier lowers the quoted price |
| Execution.TradeQtyIsMinimum | app.py:295-299 | `TradeQty`: the trade size equals one of buy_qty, sell_qty and the lot cap, and exceeds none of them |
| Execution.ExecuteTrade | app.py:291-343 | no trade exactly when min(buy_qty, sell_qty, cap) < 1. The sell-timeout branch is never taken. An executed trade orders that minimum, fills between 1 and the ordered lots, and the buy succeeds exactly unless a paper abandon was drawn |
| Execution.BuyLegUsesFilledQuantity | app.py:308-335 | the buy leg is sized by the sell leg's fill, never by the ordered quantity; the log is the sell leg's entries followed by a buy leg whose quantities all equal the fill |
| Execution.SucceededIff | app.py:300-343 | `Succeeded` (the value `execute_arbitrage_trade` returns): true exactly when the trade was sized to at least one lot and no paper abandonment was drawn |
| Execution.PaperPnlByScenario | app.py:369-370 | `ProfitPerLot`: per-lot P&L is the expected profit on an instant fill, the profit minus one increment after an adjustment, and zero once repriced to the sell price |
| Execution.TradeFinalPrice | app.py:244-287 | while 0 ≤ increment ≤ sell − buy, an executed trade never buys back above the sell price |
| Execution.PnlNonNegative | app.py:369-370 | `ProfitPerLot` and `TotalPnl`: a trade filled at or below the sell price books non-negative per-lot and total P&L |
| Execution.PaperTradeNeverLoses | app.py:369-370 | with 0 ≤ increment ≤ minimum profit, a completed paper trade of a valid opportunity has non-negative per-lot and total P&L |
| Execution.AbandonLeavesShort | app.py:278-287 | a failed buy happens only on a paper abandon; the log ends with the abandonment, the last price is the sell price, and the position is short the filled lots |
| Execution.DefaultTradesNeverLose | app.py:19-29 | under the built-in ETH and BTC defaults, no completed trade of a scanned opportunity realises a loss |
| Scenarios.TwoQuoteScan | app.py:106-178 | calls at strikes 100 (1.40/1.50) and 105 (2.00/2.10) with cap 3.00: minimum profit 0.20 gives exactly one CALL spread, 1.50 → 2.00 for 0.50 with default quantities of 100; minimum profit 0.60 gives none |
| Scenarios.EthStyleSnapshotFindsNothing | app.py:86-93 | a snapshot of `ETH-<digits>-C/P` symbols never yields an opportunity |
| Scenarios.BtcSnapshotOnlyCallSpreads | app.py:97-104 | a snapshot of `BTC-…` symbols yields only CALL spreads |
| Scenarios.ShortStrikeReadsExpiry | app.py:196-199 | in `C-<asset>-<strike>-<expiry>` a strike below 100 is skipped, and the expiry is read as the strike |
| Scenarios.SevenOfTenFilled | app.py:215-231 | 10 lots ordered with the 70% fill drawn: 7 are sold and 3 cancelled, and the buy is placed and filled for exactly 7 |

## Left out

- The HTTP routes `home` and `health` (app.py:484-508): status pages, not trading logic.
- `send_telegram` and every alert or message builder (app.py:38-56, 351-429): network delivery and text formatting. Only the P&L arithmetic at app.py:369-370 is modelled. The EXECUTED / BREAK EVEN / MANUAL INTERVENTION wording is not modelled.
- Threads, the `ultra_fast_monitoring` loop, `time.sleep` and cycle-rate logging (app.py:448-481, 514-530): concurrency and wall-clock pacing.
- `get_ist_time` and the timestamps and emoji of log entries (app.py:32-36, 63-68): wall clock and presentation. Log entries are structured actions (`Timeline.Event`) that carry the quantities and prices the source formats into its strings.
- `random.choices` and its weights (app.py:215-218, 249-252): replaced by the `Oracle` argument. Probabilities are not modelled.
- Float arithmetic: premiums, thresholds and increments are exact `real`s, and two-decimal formatting of prices is not modelled. `int(quantity*0.7)` is modelled as seven tenths truncated toward zero (`SeventyPercentOf`). The float product sometimes falls just below a whole number, so the two differ by one lot at some quantities. The smallest is 90, where the source computes 62 and the model 63; 170, 180 and 330 differ as well. All quantities below 90 agree, including the default cap of 10.
- Environment-variable parsing (app.py:12-29): the values are `Config` fields. `DefaultConfig` holds the built-in defaults.
- Non-ASCII digits in a symbol token: the model's digit test accepts only `0`-`9`. Python's `isdigit` accepts more, with two effects the model does not reproduce. A token of Unicode decimal digits (Arabic-Indic `١٢٣`, say) converts with `int()`, so the source reads it as a strike while the model skips it. A token containing a digit that is not decimal (superscript `²`, say) passes `isdigit`, but `int()` raises, and the `except` at app.py:201-202 returns 0 at once without looking at later tokens.
- The catch-all exception handler of `execute_arbitrage_trade` (app.py:345-349) and the monitoring loop's handler (app.py:479-481). A quote dictionary without a `symbol` field is not representable, because `Quote.symbol` is always present. In the source, such a quote that passes the thresholds raises `KeyError` in `check_call_arbitrage`/`check_put_arbitrage` (app.py:147-148, 173-174) during the scan. That error reaches the monitoring loop's handler, not the trade's.
- Expiry rollover and rate-limited quote refresh: they are not part of the source, whose `fetch_data` returns the fixed sample dictionaries (app.py:441-446).
