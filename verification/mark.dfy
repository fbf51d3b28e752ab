/** The live breakout detector `ema_atr_filter` (rt/mark.py).

    From the last two rows of the indicator frame it classifies the latest candle as an
    upper breakout, a lower breakout or nothing, and hands back the latest ATR for sizing.
    Both closes are compared with the band of the CURRENT candle. */
module Mark {
  import opened Market

  datatype Breakout = UpperBreakout | LowerBreakout

  /** The pair `(mark, atr_value)`; `atr` is None when the function caught an exception. */
  datatype Detection = Detection(mark: Option<Breakout>, atr: Option<Float>)

  /** The inputs reach the code that reads the last two rows: the candle fetch and the
      position query returned and the frame has at least two rows. */
  predicate Readable(window: Option<seq<Bar>>, positions: Option<seq<Position>>) {
    window.Some? && |window.value| >= 2 && positions.Some?
  }

  function Current(window: seq<Bar>): (b: Bar)
    requires |window| >= 2
    ensures b in window
  {
    window[|window| - 1]
  }

  function Previous(window: seq<Bar>): (b: Bar)
    requires |window| >= 2
    ensures b in window
  {
    window[|window| - 2]
  }

  /** `atr_pct < atr_threshold_pct`; false when the ATR is NaN. */
  predicate TooQuiet(b: Bar, thresholdPct: real) {
    Less(AtrPct(b), Num(thresholdPct))
  }

  /** Upper breakout as written: the previous close is compared with the current upper band. */
  predicate UpperCondition(window: seq<Bar>, multiplier: real)
    requires |window| >= 2
  {
    var band := UpperBand(Current(window), multiplier);
    CrossedUp(Previous(window).close, band, Current(window).close, band)
  }

  /** Lower breakout as written: the previous close is compared with the current lower band. */
  predicate LowerCondition(window: seq<Bar>, multiplier: real)
    requires |window| >= 2
  {
    var band := LowerBand(Current(window), multiplier);
    CrossedDown(Previous(window).close, band, Current(window).close, band)
  }

  /** `ema_atr_filter`. `window` is None when fetching the candles raised and `positions`
      is None when the position query raised; either, or a frame with fewer than two rows,
      ends in the exception handler. */
  function EmaAtrFilter(window: Option<seq<Bar>>, positions: Option<seq<Position>>, symbol: string,
                        multiplier: real, thresholdPct: real): (r: Detection)
    ensures r.atr.None? <==> !Readable(window, positions)
    ensures r.atr.None? ==> r.mark.None?
    ensures r.atr.Some? ==> r.atr.value == window.value[|window.value| - 1].atr
    ensures r.mark.Some? ==> && Readable(window, positions)
                             && !HasOpenPosition(positions.value, symbol)
                             && r.atr.value.Num?
                             && r.atr.value.v / window.value[|window.value| - 1].close >= thresholdPct
  {
    if !Readable(window, positions) then Detection(None, None)
    else
      var w := window.value;
      var atrValue := Current(w).atr;
      if HasOpenPosition(positions.value, symbol) then Detection(None, Some(atrValue))
      else if TooQuiet(Current(w), thresholdPct) then Detection(None, Some(atrValue))
      else if UpperCondition(w, multiplier) then Detection(Some(UpperBreakout), Some(atrValue))
      else if LowerCondition(w, multiplier) then Detection(Some(LowerBreakout), Some(atrValue))
      else Detection(None, Some(atrValue))
  }

  /** An open position on the symbol suppresses the mark whatever the prices are. */
  lemma PositionGate(window: Option<seq<Bar>>, positions: Option<seq<Position>>, symbol: string,
                     multiplier: real, thresholdPct: real)
    requires Readable(window, positions) && HasOpenPosition(positions.value, symbol)
    ensures EmaAtrFilter(window, positions, symbol, multiplier, thresholdPct)
            == Detection(None, Some(Current(window.value).atr))
  {
  }

  /** A volatility ratio strictly below the threshold suppresses the mark. */
  lemma VolatilityGate(window: Option<seq<Bar>>, positions: Option<seq<Position>>, symbol: string,
                       multiplier: real, thresholdPct: real)
    requires Readable(window, positions)
    requires Current(window.value).atr.Num?
    requires Current(window.value).atr.v / Current(window.value).close < thresholdPct
    ensures EmaAtrFilter(window, positions, symbol, multiplier, thresholdPct)
            == Detection(None, Some(Current(window.value).atr))
  {
  }

  /** A ratio exactly at the threshold is not rejected: the gate is a strict `<`. */
  lemma ThresholdIsInclusive(window: Option<seq<Bar>>, positions: Option<seq<Position>>, symbol: string,
                             multiplier: real, thresholdPct: real)
    requires Readable(window, positions) && !HasOpenPosition(positions.value, symbol)
    requires Current(window.value).atr.Num?
    requires Current(window.value).atr.v / Current(window.value).close == thresholdPct
    requires UpperCondition(window.value, multiplier)
    ensures EmaAtrFilter(window, positions, symbol, multiplier, thresholdPct).mark == Some(UpperBreakout)
  {
  }

  /** Past both gates, the mark is an upper breakout exactly when the previous close is at
      or below the current upper band and the current close is strictly above it. */
  lemma UpperIff(window: Option<seq<Bar>>, positions: Option<seq<Position>>, symbol: string,
                 multiplier: real, thresholdPct: real)
    requires Readable(window, positions) && !HasOpenPosition(positions.value, symbol)
    requires !TooQuiet(Current(window.value), thresholdPct)
    ensures var upper := UpperBand(Current(window.value), multiplier);
            EmaAtrFilter(window, positions, symbol, multiplier, thresholdPct).mark == Some(UpperBreakout)
            <==> upper.Num? && Previous(window.value).close <= upper.v && Current(window.value).close > upper.v
  {
  }

  /** Past both gates, the mark is a lower breakout exactly when the upper condition fails,
      the previous close is at or above the current lower band and the current close is
      strictly below it. */
  lemma LowerIff(window: Option<seq<Bar>>, positions: Option<seq<Position>>, symbol: string,
                 multiplier: real, thresholdPct: real)
    requires Readable(window, positions) && !HasOpenPosition(positions.value, symbol)
    requires !TooQuiet(Current(window.value), thresholdPct)
    ensures var lower := LowerBand(Current(window.value), multiplier);
            EmaAtrFilter(window, positions, symbol, multiplier, thresholdPct).mark == Some(LowerBreakout)
            <==> && !UpperCondition(window.value, multiplier)
                 && lower.Num? && Previous(window.value).close >= lower.v && Current(window.value).close < lower.v
  {
  }

  /** The two breakout conditions never hold together: both closes are compared with the
      same band, so the upper-first order of the checks never decides the outcome. */
  lemma ConditionsExclusive(window: seq<Bar>, multiplier: real)
    requires |window| >= 2
    ensures !(UpperCondition(window, multiplier) && LowerCondition(window, multiplier))
  {
  }

  /** While the EMA or the ATR of the latest row is still NaN there is no mark. */
  lemma WarmUpGivesNoMark(window: Option<seq<Bar>>, positions: Option<seq<Position>>, symbol: string,
                          multiplier: real, thresholdPct: real)
    requires window.Some? && |window.value| >= 1
    requires window.value[|window.value| - 1].ema.NaN? || window.value[|window.value| - 1].atr.NaN?
    ensures EmaAtrFilter(window, positions, symbol, multiplier, thresholdPct).mark.None?
  {
  }

  /** The indicator values of the previous row play no part: only its close is read. */
  lemma PreviousIndicatorsIgnored(w: seq<Bar>, ema: Float, atr: Float, positions: Option<seq<Position>>,
                                  symbol: string, multiplier: real, thresholdPct: real)
    requires |w| >= 2
    ensures var prev := w[|w| - 2];
            var w' := w[|w| - 2 := Bar(prev.close, ema, atr)];
            EmaAtrFilter(Some(w'), positions, symbol, multiplier, thresholdPct)
            == EmaAtrFilter(Some(w), positions, symbol, multiplier, thresholdPct)
  {
    var prev := w[|w| - 2];
    var w' := w[|w| - 2 := Bar(prev.close, ema, atr)];
    assert Current(w') == Current(w);
    assert Previous(w').close == Previous(w).close;
  }
}
