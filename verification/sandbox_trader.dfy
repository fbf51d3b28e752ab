/** The earlier sandbox trading script real_try_okx.py: its own breakout detector
    `seek_mark`, a cycle that trades a fixed 0.01 contracts with a stop-loss and a limit
    take-profit, and the wait that aligns the scheduler to quarter hours. */
module SandboxTrader {
  import opened Market
  import opened Orders
  import Mark

  const Symbol: string := "BTC/USDT:USDT"
  const Multiplier: real := 2.0
  const RR: real := 2.0
  const AtrThresholdPct: real := 0.0098
  const Leverage: int := 2
  /** Every order of this script trades this fixed quantity. */
  const Quantity: real := 0.01

  /** What `seek_mark` produces: an exception, 'hold', or an entry signal. */
  datatype MarkResult = MarkRaised | Hold | Enter(signal: Signal)

  /** `latest['atr'] / latest['close'] > ATR_THRESHOLD_PCT`; false when the ATR is NaN. */
  predicate VolatilityFilter(latest: Bar, thresholdPct: real) {
    Less(Num(thresholdPct), AtrPct(latest))
  }

  /** Long condition: the previous close against the previous upper band, the latest close
      against the latest upper band. */
  predicate LongCondition(previous: Bar, latest: Bar, multiplier: real) {
    CrossedUp(previous.close, UpperBand(previous, multiplier), latest.close, UpperBand(latest, multiplier))
  }

  predicate ShortCondition(previous: Bar, latest: Bar, multiplier: real) {
    CrossedDown(previous.close, LowerBand(previous, multiplier), latest.close, LowerBand(latest, multiplier))
  }

  /** `seek_mark`. `window` is None when fetching the candles raised and `positions` is None
      when the position query raised; these, and a frame of fewer than two rows, raise out of
      the detector. */
  function SeekMark(window: Option<seq<Bar>>, positions: Option<seq<Position>>): (r: MarkResult)
    ensures r.MarkRaised? <==> window.None? || |window.value| < 2 || positions.None?
    ensures r.Enter? ==> && !HasOpenPosition(positions.value, Symbol)
                         && VolatilityFilter(window.value[|window.value| - 1], AtrThresholdPct)
  {
    if window.None? || |window.value| < 2 || positions.None? then MarkRaised
    else
      var latest := window.value[|window.value| - 1];
      var previous := window.value[|window.value| - 2];
      var hasPosition := HasOpenPosition(positions.value, Symbol);
      var volatilityOk := VolatilityFilter(latest, AtrThresholdPct);
      if !hasPosition && LongCondition(previous, latest, Multiplier) && volatilityOk then Enter(LongEntry)
      else if !hasPosition && ShortCondition(previous, latest, Multiplier) && volatilityOk then Enter(ShortEntry)
      else Hold
  }

  /** `long_entry` exactly when there is no position, the close crosses up through the upper
      band and the ATR ratio is strictly above the threshold. */
  lemma LongIff(w: seq<Bar>, positions: seq<Position>)
    requires |w| >= 2
    ensures var previous := w[|w| - 2];
            var latest := w[|w| - 1];
            var pu := UpperBand(previous, Multiplier);
            var lu := UpperBand(latest, Multiplier);
            SeekMark(Some(w), Some(positions)) == Enter(LongEntry)
            <==> && !HasOpenPosition(positions, Symbol)
                 && pu.Num? && previous.close <= pu.v
                 && lu.Num? && latest.close > lu.v
                 && latest.atr.Num? && latest.atr.v / latest.close > AtrThresholdPct
  {
  }

  /** `short_entry` exactly when the long condition fails and the close crosses down through
      the lower band under the same gates; anything else readable is 'hold'. */
  lemma ShortIff(w: seq<Bar>, positions: seq<Position>)
    requires |w| >= 2
    ensures var previous := w[|w| - 2];
            var latest := w[|w| - 1];
            var pl := LowerBand(previous, Multiplier);
            var ll := LowerBand(latest, Multiplier);
            SeekMark(Some(w), Some(positions)) == Enter(ShortEntry)
            <==> && !HasOpenPosition(positions, Symbol)
                 && !LongCondition(previous, latest, Multiplier)
                 && pl.Num? && previous.close >= pl.v
                 && ll.Num? && latest.close < ll.v
                 && latest.atr.Num? && latest.atr.v / latest.close > AtrThresholdPct
  {
  }

  /** Once the volatility filter passes the latest ATR is positive, so the latest upper band
      lies above the latest lower band and the long and short conditions cannot hold
      together: the long-first order of the checks never decides the outcome. */
  lemma GatedConditionsExclusive(previous: Bar, latest: Bar)
    requires VolatilityFilter(latest, AtrThresholdPct)
    ensures !(LongCondition(previous, latest, Multiplier) && ShortCondition(previous, latest, Multiplier))
  {
    PositiveRatio(latest.atr.v, latest.close);
    if latest.ema.Num? {
      BandsOrdered(latest, Multiplier);
    }
  }

  /** An ATR ratio exactly at the threshold is rejected: the filter is a strict `>`. */
  lemma ThresholdIsExclusive(w: seq<Bar>, positions: seq<Position>)
    requires |w| >= 2
    requires w[|w| - 1].atr.Num? && w[|w| - 1].atr.v / w[|w| - 1].close == AtrThresholdPct
    ensures SeekMark(Some(w), Some(positions)) == Hold
  {
  }

  /** When the previous row carries the same EMA and ATR as the latest one (so both bands
      coincide) and the ATR ratio is not exactly at the threshold, `seek_mark` and the live
      `ema_atr_filter` run with the same parameters see the same breakouts. */
  lemma DetectorsAgreeOnFlatBands(w: seq<Bar>, positions: seq<Position>)
    requires |w| >= 2
    requires w[|w| - 2].ema == w[|w| - 1].ema && w[|w| - 2].atr == w[|w| - 1].atr
    requires w[|w| - 1].atr.Num? ==> w[|w| - 1].atr.v / w[|w| - 1].close != AtrThresholdPct
    ensures var live := Mark.EmaAtrFilter(Some(w), Some(positions), Symbol, Multiplier, AtrThresholdPct);
            && (SeekMark(Some(w), Some(positions)) == Enter(LongEntry) <==> live.mark == Some(Mark.UpperBreakout))
            && (SeekMark(Some(w), Some(positions)) == Enter(ShortEntry) <==> live.mark == Some(Mark.LowerBreakout))
  {
  }

  /** The detectors differ when the bands move: here the previous close lies below the
      previous upper band but above the latest one, so `seek_mark` goes long while the live
      detector, which compares it with the latest band, reports nothing. */
  lemma DetectorsDifferOnMovingBands()
    ensures var w := [Bar(106.0, Num(110.0), Num(1.0)), Bar(107.0, Num(100.0), Num(2.0))];
            && SeekMark(Some(w), Some([])) == Enter(LongEntry)
            && Mark.EmaAtrFilter(Some(w), Some([]), Symbol, Multiplier, AtrThresholdPct).mark.None?
  {
  }

  /** The orders protecting a fill at `entry` with stop distance `atr`: a market stop-loss
      and a limit take-profit at RR stop distances, triggered halfway to its limit price. */
  function ProtectiveLegs(signal: Signal, entry: real, atr: real): (legs: seq<OrderAction>)
    ensures |legs| == 2 && legs[0].StopLossOrder? && legs[1].TakeProfitOrder?
    ensures forall i :: 0 <= i < 2 ==> legs[i].side == ExitSide(signal) && legs[i].amount == Quantity && legs[i].reduceOnly
    ensures legs[0].posSide.None?
    ensures signal == LongEntry ==> entry - legs[0].stopLossPrice == atr && legs[1].price - entry == atr * RR
    ensures signal == ShortEntry ==> legs[0].stopLossPrice - entry == atr && entry - legs[1].price == atr * RR
    ensures legs[1].takeProfitPrice == (entry + legs[1].price) / 2.0
    ensures atr > 0.0 && signal == LongEntry ==>
              legs[0].stopLossPrice < entry < legs[1].takeProfitPrice < legs[1].price
    ensures atr > 0.0 && signal == ShortEntry ==>
              legs[1].price < legs[1].takeProfitPrice < entry < legs[0].stopLossPrice
  {
    var tpPrice := TargetPrice(signal, entry, atr * RR);
    [ StopLossOrder(ExitSide(signal), Quantity, StopPrice(signal, entry, atr), true, None),
      TakeProfitOrder(ExitSide(signal), Quantity, tpPrice, (entry + tpPrice) / 2.0, true) ]
  }

  /** One cycle of `strategy`. `refetchedAtr` is the latest ATR of the frame fetched a second
      time after the signal, None when that fetch raised; `ex` answers the exchange calls. */
  function Strategy(window: Option<seq<Bar>>, positions: Option<seq<Position>>, refetchedAtr: Option<real>,
                    ex: Exchange): (r: CycleResult)
    ensures |r.actions| >= 1 && r.actions[0] == SetLeverage(Leverage)
    ensures |r.actions| <= 4
    ensures r.ending == NoSignal <==> ex.leverageSet && SeekMark(window, positions).Hold?
  {
    var leverage := [SetLeverage(Leverage)];
    if !ex.leverageSet then CycleResult(leverage, Aborted)
    else
      match SeekMark(window, positions)
      case MarkRaised => CycleResult(leverage, Aborted)
      case Hold => CycleResult(leverage, NoSignal)
      case Enter(signal) =>
        if refetchedAtr.None? then CycleResult(leverage, Aborted)
        else
          var atr := refetchedAtr.value;
          var pre := leverage + [MarketOrder(EntrySide(signal), Quantity, None)];
          if !ex.entryAccepted then CycleResult(pre, Aborted)
          else
            match ConfirmFill(ex.query)
            case Raised => CycleResult(pre, Aborted)
            case Unfilled => CycleResult(pre, Unconfirmed)
            case Confirmed(entry) =>
              var legs := ProtectiveLegs(signal, entry, atr);
              if !ex.stopAccepted then CycleResult(pre + legs[..1], Aborted)
              else CycleResult(pre + legs, if ex.exitAccepted then Protected else Aborted)
  }

  /** A leverage call that raises aborts the cycle before the candles are even read. */
  lemma LeverageFailureAborts(window: Option<seq<Bar>>, positions: Option<seq<Position>>, refetchedAtr: Option<real>,
                              ex: Exchange)
    requires !ex.leverageSet
    ensures Strategy(window, positions, refetchedAtr, ex) == CycleResult([SetLeverage(Leverage)], Aborted)
  {
  }

  /** Once the leverage is set, a raising `seek_mark` or a raising second candle fetch aborts
      the cycle before any order, and a signal with an ATR places the market entry on the
      signal's side as the second call. */
  lemma EntryFollowsSignal(window: Option<seq<Bar>>, positions: Option<seq<Position>>, refetchedAtr: Option<real>,
                           ex: Exchange)
    requires ex.leverageSet
    ensures var r := Strategy(window, positions, refetchedAtr, ex);
            var m := SeekMark(window, positions);
            && (m.MarkRaised? ==> r == CycleResult([SetLeverage(Leverage)], Aborted))
            && (m.Enter? && refetchedAtr.None? ==> r == CycleResult([SetLeverage(Leverage)], Aborted))
            && (m.Enter? && refetchedAtr.Some? ==>
                  |r.actions| >= 2 && r.actions[1] == MarketOrder(EntrySide(m.signal), Quantity, None))
  {
  }

  /** After the entry, a rejected entry or a raising order query aborts, an unconfirmed fill
      ends unconfirmed, and a confirmed fill gets the stop-loss and, once that is accepted,
      the take-profit, priced from the fill price and the re-fetched ATR. The cycle ends
      protected exactly when the exchange accepted both legs. */
  lemma ProtectsConfirmedFill(window: Option<seq<Bar>>, positions: Option<seq<Position>>, refetchedAtr: Option<real>,
                              ex: Exchange, signal: Signal)
    requires ex.leverageSet && SeekMark(window, positions) == Enter(signal) && refetchedAtr.Some?
    ensures var r := Strategy(window, positions, refetchedAtr, ex);
            var pre := [SetLeverage(Leverage), MarketOrder(EntrySide(signal), Quantity, None)];
            && (!ex.entryAccepted ==> r == CycleResult(pre, Aborted))
            && (ex.entryAccepted && ConfirmFill(ex.query).Raised? ==> r == CycleResult(pre, Aborted))
            && (ex.entryAccepted && ConfirmFill(ex.query).Unfilled? ==> r == CycleResult(pre, Unconfirmed))
            && (ex.entryAccepted && ConfirmFill(ex.query).Confirmed? ==>
                  && r.actions == pre + ProtectiveLegs(signal, FillPivot(ex), refetchedAtr.value)[..if ex.stopAccepted then 2 else 1]
                  && (r.ending == Protected <==> ex.stopAccepted && ex.exitAccepted)
                  && (r.ending != Protected ==> r.ending == Aborted))
  {
  }

  /** 'hold' places no order: the only call of the cycle is the leverage setting. */
  lemma HoldPlacesNothing(window: Option<seq<Bar>>, positions: Option<seq<Position>>, refetchedAtr: Option<real>,
                          ex: Exchange)
    requires ex.leverageSet && SeekMark(window, positions).Hold?
    ensures Strategy(window, positions, refetchedAtr, ex) == CycleResult([SetLeverage(Leverage)], NoSignal)
  {
  }

  /** Entry, stop-loss and take-profit all trade the fixed quantity. */
  lemma FixedQuantity(window: Option<seq<Bar>>, positions: Option<seq<Position>>, refetchedAtr: Option<real>,
                      ex: Exchange)
    ensures var acts := Strategy(window, positions, refetchedAtr, ex).actions;
            forall i :: 0 <= i < |acts| && !acts[i].SetLeverage? ==> acts[i].amount == Quantity
  {
  }

  /** No protective order without a confirmed fill of the entry. */
  lemma NoProtectionWithoutFill(window: Option<seq<Bar>>, positions: Option<seq<Position>>, refetchedAtr: Option<real>,
                                ex: Exchange)
    ensures HasProtection(Strategy(window, positions, refetchedAtr, ex).actions)
            ==> ConfirmFill(ex.query).Confirmed? && SeekMark(window, positions).Enter?
  {
    var acts := Strategy(window, positions, refetchedAtr, ex).actions;
    if HasProtection(acts) {
      var i :| 0 <= i < |acts| && acts[i].IsProtective();
      assert i >= 2;
    }
  }

  /** Swapping the direction of the signal mirrors the order-placing part of the cycle
      about the fill price, and, mirroring being its own inverse, the other way round. */
  lemma SideSymmetry(w: seq<Bar>, positions: seq<Position>, w': seq<Bar>, positions': seq<Position>,
                     refetchedAtr: Option<real>, ex: Exchange)
    requires SeekMark(Some(w), Some(positions)) == Enter(LongEntry)
    requires SeekMark(Some(w'), Some(positions')) == Enter(ShortEntry)
    ensures Strategy(Some(w'), Some(positions'), refetchedAtr, ex)
            == ReflectResult(Strategy(Some(w), Some(positions), refetchedAtr, ex), FillPivot(ex))
    ensures Strategy(Some(w), Some(positions), refetchedAtr, ex)
            == ReflectResult(Strategy(Some(w'), Some(positions'), refetchedAtr, ex), FillPivot(ex))
  {
    var long := Strategy(Some(w), Some(positions), refetchedAtr, ex);
    var short := Strategy(Some(w'), Some(positions'), refetchedAtr, ex);
    var mirrored := ReflectResult(long, FillPivot(ex));
    assert short == mirrored by {
      forall i | 0 <= i < |short.actions|
        ensures short.actions[i] == mirrored.actions[i]
      {
      }
    }
    ReflectResultInvolution(long, FillPivot(ex));
  }

  /** Minutes to wait until the next quarter hour, 0 when already on one. */
  function WaitMinutes(minute: int): (wait: int)
    ensures 0 <= wait < 15
    ensures (minute + wait) % 15 == 0
    ensures wait == 0 <==> minute % 15 == 0
  {
    var remainder := minute % 15;
    if remainder == 0 then 0 else 15 - remainder
  }

  /** The wait is the shortest one that lands on a quarter hour. */
  lemma WaitIsShortest(minute: int, k: int)
    requires 0 <= k < WaitMinutes(minute)
    ensures (minute + k) % 15 != 0
  {
    var r := minute % 15;
    assert minute == 15 * (minute / 15) + r;
    assert minute + k == 15 * (minute / 15) + (r + k);
    assert 0 < r + k < 15;
  }

  function WaitSeconds(minute: int): (seconds: int)
    ensures 0 <= seconds < 900 && seconds % 60 == 0
    ensures (minute + seconds / 60) % 15 == 0
  {
    WaitMinutes(minute) * 60
  }
}
