/** Market data as the trading scripts see it: the last rows of an indicator frame
    (close, EMA, ATR), the volatility bands derived from them, and the open positions
    reported by the exchange. Indicator values are computed by an external library and
    enter the model as given values. */
module Market {

  datatype Option<+T> = None | Some(value: T)

  /** A float64 cell of the indicator frame. Indicators still warming up hold NaN,
      and every IEEE comparison involving NaN is false. */
  datatype Float = NaN | Num(v: real)

  predicate Less(a: Float, b: Float) {
    a.Num? && b.Num? && a.v < b.v
  }

  predicate LessEq(a: Float, b: Float) {
    a.Num? && b.Num? && a.v <= b.v
  }

  function Plus(a: Float, b: Float): (r: Float)
    ensures r.Num? <==> a.Num? && b.Num?
    ensures r.Num? ==> r.v == a.v + b.v
  {
    if a.Num? && b.Num? then Num(a.v + b.v) else NaN
  }

  function Minus(a: Float, b: Float): (r: Float)
    ensures r.Num? <==> a.Num? && b.Num?
    ensures r.Num? ==> r.v == a.v - b.v
  {
    if a.Num? && b.Num? then Num(a.v - b.v) else NaN
  }

  function Scale(k: real, a: Float): (r: Float)
    ensures r.Num? <==> a.Num?
    ensures r.Num? ==> r.v == k * a.v
  {
    if a.Num? then Num(k * a.v) else NaN
  }

  /** Exchange prices are strictly positive. */
  type Price = r: real | r > 0.0 witness 1.0

  /** One row of the indicator frame: the candle close with the EMA and ATR aligned to it. */
  datatype Bar = Bar(close: Price, ema: Float, atr: Float)

  /** ema + multiplier * atr */
  function UpperBand(b: Bar, multiplier: real): (r: Float)
    ensures r.Num? <==> b.ema.Num? && b.atr.Num?
    ensures r.Num? ==> r.v == b.ema.v + multiplier * b.atr.v
  {
    Plus(b.ema, Scale(multiplier, b.atr))
  }

  /** ema - multiplier * atr */
  function LowerBand(b: Bar, multiplier: real): (r: Float)
    ensures r.Num? <==> b.ema.Num? && b.atr.Num?
    ensures r.Num? ==> r.v == b.ema.v - multiplier * b.atr.v
  {
    Minus(b.ema, Scale(multiplier, b.atr))
  }

  /** ATR as a fraction of the close; NaN while the ATR is undefined. */
  function AtrPct(b: Bar): (r: Float)
    ensures r.Num? <==> b.atr.Num?
    ensures r.Num? ==> r.v * b.close == b.atr.v
  {
    if b.atr.Num? then Num(b.atr.v / b.close) else NaN
  }

  /** The close moved from at-or-below `prevBand` to strictly above `curBand`. */
  predicate CrossedUp(prevClose: real, prevBand: Float, curClose: real, curBand: Float) {
    LessEq(Num(prevClose), prevBand) && Less(curBand, Num(curClose))
  }

  /** The close moved from at-or-above `prevBand` to strictly below `curBand`. */
  predicate CrossedDown(prevClose: real, prevBand: Float, curClose: real, curBand: Float) {
    LessEq(prevBand, Num(prevClose)) && Less(Num(curClose), curBand)
  }

  /** A position entry as returned by the exchange's position query. */
  datatype Position = Position(symbol: string, contracts: real)

  /** Python's `any(pos['symbol'] == symbol and pos['contracts'] != 0 for pos in positions)`. */
  function HasOpenPosition(positions: seq<Position>, symbol: string): (r: bool)
    ensures r <==> exists i :: 0 <= i < |positions| && positions[i].symbol == symbol && positions[i].contracts != 0.0
  {
    if |positions| == 0 then false
    else (positions[0].symbol == symbol && positions[0].contracts != 0.0)
         || HasOpenPosition(positions[1..], symbol)
  }

  /** A ratio of a number to a positive price is positive only if the number is. */
  lemma PositiveRatio(a: real, c: Price)
    requires a / c > 0.0
    ensures a > 0.0
  {
  }

  /** The two bands lie symmetrically about the EMA, `multiplier` ATRs away on either side,
      so with a non-negative ATR and multiplier the lower band never lies above the upper band. */
  lemma BandsOrdered(b: Bar, multiplier: real)
    requires b.ema.Num? && b.atr.Num?
    requires multiplier >= 0.0 && b.atr.v >= 0.0
    ensures UpperBand(b, multiplier).v - b.ema.v == b.ema.v - LowerBand(b, multiplier).v == multiplier * b.atr.v
    ensures LessEq(LowerBand(b, multiplier), UpperBand(b, multiplier))
  {
    assert multiplier * b.atr.v >= 0.0;
  }
}
