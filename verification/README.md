# Breakout trading agent: per-cycle decision logic

A Dafny model of the decision logic of an automated breakout trader for the OKX
BTC/USDT perpetual swap. Each polling cycle runs these steps:

1. It reads the last two rows of an indicator frame (close, EMA, ATR) and derives a
   volatility band `EMA ± k·ATR`.
2. It decides whether the latest candle broke out of the band. It does not trade while a
   position is open or while the ATR is too small relative to the price.
3. It turns the breakout into a long or short entry.
4. It places a market entry and confirms the fill.
5. It protects the filled position with reduce-only exit orders.

The repository contains two versions of this logic, and both are modelled:

- **the live version**: `ema_atr_filter` in `rt/mark.py`, and `time_checker` / `strategy` in
  `rt/real_try_okx.py`. Breakouts are remapped by hour of day (trend-following or
  counter-trend). Size is a fixed risk budget divided by the ATR. A failed fetch of the open
  orders is ignored. Protection is a stop-loss plus a trailing stop, both for the quantity
  actually filled.
- **the sandbox version**: `seek_mark`, `strategy` and the wait arithmetic of `main` in
  `real_try_okx.py`. It uses its own detector, a fixed 0.01-contract size, a stop-loss plus a
  limit take-profit triggered halfway to its limit, and a scheduler aligned to quarter hours.

Modules:

- `Market` (market.dfy): float cells that may be NaN, with IEEE comparisons; indicator rows;
  bands; the open-position test.
- `Orders` (orders.dfy): the exchange calls a cycle issues (`OrderAction`); the fetched-order
  record; fill confirmation; stop and target prices; `Reflect`, which turns a long trade's
  calls into the matching short trade's calls.
- `Mark` (mark.dfy): the live detector.
- `LiveTrader` (live_trader.dfy): the live cycle.
- `SandboxTrader` (sandbox_trader.dfy): the sandbox detector, the sandbox cycle and the
  quarter-hour wait.

A cycle is a pure function. Its inputs are the market data and the exchange's answers
(`Exchange`: whether each call returned, the open-order ids, and the fetched order). Its output
is a `CycleResult`: the state-changing calls it issued, in order, and an `Ending`. An
exception caught by the script's outer handler becomes the ending `Aborted`. A gateway read
that raised becomes a `None` input, except the order query, whose failure is the answer `QueryRaised`.

Behaviour of the code worth knowing:

- The live detector compares the previous close with the *current* candle's band. It does not
  use the previous candle's band. `SandboxTrader.DetectorsDifferOnMovingBands` gives a window
  where this changes the outcome.
- The live gate rejects only `atr/close < threshold`, so a ratio equal to the threshold passes.
  The sandbox filter needs a strict `>`.
- The live position size is `RISK_USDT * 100 / atr`. Leverage is not part of the formula. The
  code never checks for a zero stop distance. Instead, the model proves that sizing runs only
  after the volatility gate has passed, and that the gate then forces `atr > 0`.
- The fill-size fallback is `dict.get` semantics. `amount`, and then the requested size, are
  used only when the key is *absent*. A key that is present but holds `None` makes `float()`
  raise, and the cycle aborts.
- The upper-before-lower order of the checks never decides anything. In the live detector
  both closes are compared with one band, so the previous close would have to lie inside the
  band while the current close lies both above and below it. In the sandbox detector the
  passed volatility filter makes the latest ATR positive. Either way the two breakout
  conditions are mutually exclusive (`Mark.ConditionsExclusive`,
  `SandboxTrader.GatedConditionsExclusive`).
- Only the percentage volatility threshold exists in the code. No absolute-threshold mode is
  implemented.

## Model

| member | source | states |
|---|---|---|
| Market.HasOpenPosition | rt/mark.py:25-26 | a position blocks trading exactly when some reported position is on the symbol with non-zero contracts |
| Market.AtrPct | rt/mark.py:32 | the volatility ratio is NaN exactly when the ATR is, and otherwise times the close gives back the ATR |
| Market.UpperBand | rt/mark.py:13 | the upper band is NaN exactly when the EMA or the ATR is, and otherwise is EMA + k·ATR |
| Market.LowerBand | rt/mark.py:14 | the lower band is NaN exactly when the EMA or the ATR is, and otherwise is EMA − k·ATR |
| Market.BandsOrdered | rt/mark.py:13-14 | both bands lie exactly k·ATR from the EMA, one above and one below, so with non-negative multiplier and ATR the lower band is at or below the upper band |
| Mark.EmaAtrFilter | rt/mark.py:5-53 | the ATR component is None exactly on the exception path (fetch or position query raised, fewer than two rows), and is otherwise the latest ATR; a mark implies readable inputs, no open position, a defined ATR and atr/close >= threshold |
| Mark.PositionGate | rt/mark.py:24-29 | with an open position the result is (None, latest ATR) whatever the prices |
| Mark.VolatilityGate | rt/mark.py:31-35 | a ratio strictly below the threshold gives (None, latest ATR) |
| Mark.ThresholdIsInclusive | rt/mark.py:32-33 | a ratio equal to the threshold does not reject an upper breakout |
| Mark.UpperIff | rt/mark.py:37-44 | past the gates, the mark is upper exactly when previous close <= current upper band < current close |
| Mark.LowerIff | rt/mark.py:40-47 | past the gates, the mark is lower exactly when the upper condition fails and previous close >= current lower band > current close |
| Mark.ConditionsExclusive | rt/mark.py:37-47 | the upper and lower conditions never hold together, whatever the multiplier and ATR |
| Mark.WarmUpGivesNoMark | rt/mark.py:11-14 | a NaN EMA or ATR on the latest row (indicator warm-up) gives no mark |
| Mark.PreviousIndicatorsIgnored | rt/mark.py:19-22 | changing the previous row's EMA and ATR never changes the result |
| Orders.FillPivot | rt/real_try_okx.py:126-127 | for a confirmed fill the pivot is the confirmed average fill price, which is non-zero |
| Orders.ConfirmFill | rt/real_try_okx.py:125-131 | the fill is confirmed exactly when a record with status 'closed' and a non-zero average exists, at that average; a raising query, a missing `status` key, or a missing `average` key when the status is 'closed' raises |
| Orders.StopPrice | rt/real_try_okx.py:138 | the stop lies exactly one stop distance below the entry for a long and above it for a short |
| Orders.TargetPrice | rt/real_try_okx.py:139 | the target lies exactly one profit distance above the entry for a long and below it for a short |
| Orders.ReflectResultInvolution | rt/real_try_okx.py:172-224 | mirroring a cycle twice about the same price gives it back, so the long/short mirror holds both ways |
| Orders.PricesMirror | rt/real_try_okx.py:192-193 | a short's stop and target are the long's reflected about the entry price |
| LiveTrader.TimeChecker | rt/real_try_okx.py:51-57 | counter-trend exactly for hours 4..11, trend-following for every other integer |
| LiveTrader.SignalFor | rt/real_try_okx.py:71-84 | there is a signal exactly when there is a mark |
| LiveTrader.TrendFollowingMapping | rt/real_try_okx.py:80-84 | trend following: upper to long, lower to short |
| LiveTrader.CounterTrendInverts | rt/real_try_okx.py:75-79 | counter-trend gives the opposite side of trend following for every mark |
| LiveTrader.PositionSize | rt/real_try_okx.py:107-110 | size times stop distance equals the risk budget times 100, positive for a positive distance |
| LiveTrader.ActualSize | rt/real_try_okx.py:132 | the fill size is `filled` when that key is present, else `amount` when present, else the requested size; a present None makes it unreadable |
| LiveTrader.CancelStale | rt/real_try_okx.py:95-105 | one cancel of all open ids when there are any; nothing when there are none or the fetch raised |
| LiveTrader.EntryOrder | rt/real_try_okx.py:118-121 | the entry is a market order on the entry side and the signal's position leg, with positive size whose product with the stop distance is the risk budget·100 |
| LiveTrader.ProtectiveLegs | rt/real_try_okx.py:137-168 | stop then trailing stop, both reduce-only on the exit side and the signal's position leg for the given quantity; trailing spread = atr·RR; long: stop exactly atr below the entry and activation exactly atr·RR above it, short mirrored |
| LiveTrader.Execute | rt/real_try_okx.py:107-224 | with a signal the cycle always issues at least one call beyond the stale-order cancel and never ends as no-signal |
| LiveTrader.EntryRejectedAborts | rt/real_try_okx.py:121 | an entry order that raises aborts the cycle with the entry as its last call |
| LiveTrader.UnusableFillStopsAfterEntry | rt/real_try_okx.py:125-135 | a raising query or unreadable size aborts, an unconfirmed fill ends unconfirmed, a fill of size <= 0 ends as zero fill, each with the entry as the last call |
| LiveTrader.ProtectsConfirmedFill | rt/real_try_okx.py:125-170 | a confirmed positive fill gets cancel, entry, the stop and, once the stop is accepted, the trailing stop, priced from the fill price for the filled size; Protected exactly when both legs were accepted, Aborted otherwise |
| LiveTrader.StopRiskIsBudget | rt/real_try_okx.py:107-110 | a stop-out of the requested size at the placed stop price loses exactly the risk budget·100 |
| LiveTrader.Strategy | rt/real_try_okx.py:59-227 | a cycle issues no call exactly when it ends without a signal |
| LiveTrader.ActionOrder | rt/real_try_okx.py:95-170 | calls come as cancel (if any), entry, then a prefix of [stop, trailing] that exists only for a confirmed positive fill and uses that fill's price and size; conversely an accepted entry with a confirmed positive fill issues the stop, and the trailing stop too when the stop was accepted; Protected exactly when both legs were issued and accepted |
| LiveTrader.NoProtectionWithoutFill | rt/real_try_okx.py:124-146 | a protective order implies a confirmed fill of positive readable size, and every protective order covers exactly that size |
| LiveTrader.UnconfirmedStopsAfterEntry | rt/real_try_okx.py:178-185 | an unconfirmed fill ends the cycle right after the entry with no protective order |
| LiveTrader.CancelFailureDoesNotBlockEntry | rt/real_try_okx.py:96-105 | when fetching open orders raised the entry is still the first call |
| LiveTrader.SideSymmetry | rt/real_try_okx.py:172-224 | the short cycle equals the long cycle with sides swapped and prices reflected about the fill price, and the long cycle is the short one mirrored the same way |
| LiveTrader.NoSignalNoActions | rt/real_try_okx.py:86-88 | the cycle issues no call exactly when the detector gives no mark |
| LiveTrader.SignalledCycleProtects | rt/real_try_okx.py:59-227 | a signalled cycle runs the order placement with the latest ATR, and one whose entry, stop and trailing stop are accepted with a confirmed positive fill ends Protected with exactly cancel, entry, stop and trailing stop |
| LiveTrader.OpenPositionNoActions | rt/real_try_okx.py:64-88 | an open position yields an empty, no-signal cycle |
| LiveTrader.EntryFollowsSignal | rt/real_try_okx.py:107-121 | with a signal the ATR is defined and positive and the entry goes the signalled way with size·atr = risk budget·100 |
| SandboxTrader.SeekMark | real_try_okx.py:55-85 | an exception exactly when the fetch or position query raised or fewer than two rows exist; an entry implies no position and a ratio strictly above the threshold |
| SandboxTrader.LongIff | real_try_okx.py:70-75 | long exactly when no position, previous close <= previous upper band, latest close > latest upper band, ratio > threshold |
| SandboxTrader.ShortIff | real_try_okx.py:77-85 | short exactly when the long condition fails and the mirrored lower-band conditions and gates hold |
| SandboxTrader.GatedConditionsExclusive | real_try_okx.py:68-81 | once the volatility filter passes, the long and short conditions never hold together |
| SandboxTrader.ThresholdIsExclusive | real_try_okx.py:66-68 | a ratio equal to the threshold gives hold |
| SandboxTrader.DetectorsAgreeOnFlatBands | real_try_okx.py:59-85 | with the previous row's EMA and ATR equal to the latest ones and the ATR ratio not exactly at the threshold, the two detectors, run with the sandbox's multiplier and threshold, agree on long/upper and short/lower |
| SandboxTrader.DetectorsDifferOnMovingBands | real_try_okx.py:70-75 | a concrete window where seek_mark goes long and the live detector, run with the same multiplier and threshold, reports nothing |
| SandboxTrader.ProtectiveLegs | real_try_okx.py:123-137 | stop then limit take-profit, reduce-only, exit side, 0.01 each, no position leg; long: stop exactly atr below the entry and limit exactly atr·RR above it, short mirrored; the trigger is the midpoint of entry and limit |
| SandboxTrader.Strategy | real_try_okx.py:87-173 | the first call is always the leverage setting and a cycle issues at most four calls; it ends without a signal exactly when the leverage call returned and seek_mark said hold |
| SandboxTrader.LeverageFailureAborts | real_try_okx.py:88-89 | a raising leverage call aborts the cycle with that call as the only one |
| SandboxTrader.EntryFollowsSignal | real_try_okx.py:92-110 | a raising seek_mark or candle re-fetch aborts after the leverage call; with a signal and an ATR the second call is a 0.01 market entry on the signal's side |
| SandboxTrader.ProtectsConfirmedFill | real_try_okx.py:108-170 | a rejected entry or raising query aborts after the entry, an unconfirmed fill ends unconfirmed, a confirmed fill gets the stop and, once accepted, the take-profit priced from the fill price; Protected exactly when both legs were accepted |
| SandboxTrader.HoldPlacesNothing | real_try_okx.py:94-96 | hold issues only the leverage call and ends without a signal |
| SandboxTrader.FixedQuantity | real_try_okx.py:108-170 | every order of the cycle trades 0.01 |
| SandboxTrader.NoProtectionWithoutFill | real_try_okx.py:114-121 | a protective order implies an entry signal and a confirmed fill |
| SandboxTrader.SideSymmetry | real_try_okx.py:140-170 | a short cycle is the long cycle reflected about the fill price, and the long cycle the short one reflected |
| SandboxTrader.WaitMinutes | real_try_okx.py:182-186 | the wait is in 0..14, lands on a quarter hour, and is 0 exactly on one |
| SandboxTrader.WaitIsShortest | real_try_okx.py:182-186 | no shorter wait lands on a quarter hour |
| SandboxTrader.WaitSeconds | real_try_okx.py:188-189 | the wait in seconds is a whole number of minutes below 900 that lands on a quarter hour |

## Left out

- Indicator computation (`talib.EMA`, `talib.ATR`): an external library. EMA and ATR values enter as the fields of each row.
- Exchange calls (candles, positions, open orders, orders, leverage, balance): the exchange client is external. Their answers are inputs. State-changing calls are output actions, and order ids are not tracked.
- `get_ohlcv_data` and `send_email_notification` of the live script come from a utils module that is not part of this model. The fetch is an input. The notification is assumed not to raise.
- Credential loading, printing, `time.sleep`, `datetime.now` and the `while True` loops are I/O and timing. The hour and the minute are inputs. Only the wait arithmetic is modelled.
- The live script's startup calls in `main` (balance fetch, leverage 10 on both position sides) are I/O done once, outside the cycle.
- ema_atr_trend.py (a backtest wrapper over a third-party library) and utils.py (CSV plumbing) are not part of the core.
- Floating-point rounding, infinities and `str()` formatting of the trailing parameters: prices are `real`. NaN is modelled only for indicator cells.
- Mark.EmaAtrFilter: closes are positive by type (`Price`). A zero close, which would give an infinite or NaN ratio, is not modelled.
- SandboxTrader.SeekMark: closes are positive by type (`Price`), as for the live detector. A zero close is not modelled.
- SandboxTrader.Strategy: the ATR of the re-fetched frame is taken as a defined number. A NaN there, which would lead to NaN protective prices, is not modelled.
- Market.HasOpenPosition: `contracts` is a number. A `None` contracts value, which Python counts as non-zero, is not modelled.
