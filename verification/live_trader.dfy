/** The live trading cycle `strategy` of rt/real_try_okx.py.

    One cycle asks the live detector for a mark, turns it into a long or short entry
    according to the hour of day, cancels stale open orders, opens a market position sized
    by a fixed risk budget, confirms the fill, and protects the filled quantity with a
    reduce-only stop-loss and a reduce-only trailing stop. */
module LiveTrader {
  import opened Market
  import opened Orders
  import opened Mark

  const Symbol: string := "BTC/USDT:USDT"
  const Multiplier: real := 4.0
  const AtrThresholdPct: real := 0.0007
  /** Risk/reward ratio: the take-profit distance in stop distances. */
  const RR: real := 1.0
  /** Risk budget per trade in USDT. */
  const RiskUsdt: real := 1.0

  datatype Mode = CounterTrend | TrendFollowing

  /** `time_checker`: counter-trend trading from 04:00 to 11:59 UTC, trend following
      otherwise, including hours outside 0..23. */
  function TimeChecker(hour: int): (m: Mode)
    ensures m == CounterTrend <==> 4 <= hour <= 11
  {
    if 4 <= hour <= 11 then CounterTrend
    else if 12 <= hour <= 23 || 0 <= hour <= 3 then TrendFollowing
    else TrendFollowing
  }

  /** The trade a mark asks for under a mode. */
  function SignalFor(mode: Mode, mark: Option<Breakout>): (s: Option<Signal>)
    ensures s.None? <==> mark.None?
  {
    match mark
    case None => None
    case Some(UpperBreakout) => if mode == TrendFollowing then Some(LongEntry) else Some(ShortEntry)
    case Some(LowerBreakout) => if mode == TrendFollowing then Some(ShortEntry) else Some(LongEntry)
  }

  /** Trend following buys upper breakouts and sells lower ones. */
  lemma TrendFollowingMapping()
    ensures SignalFor(TrendFollowing, Some(UpperBreakout)) == Some(LongEntry)
    ensures SignalFor(TrendFollowing, Some(LowerBreakout)) == Some(ShortEntry)
  {
  }

  /** Counter-trend mode takes the opposite side of trend following for every mark. */
  lemma CounterTrendInverts(mark: Breakout)
    ensures SignalFor(CounterTrend, Some(mark)) == Some(Opposite(SignalFor(TrendFollowing, Some(mark)).value))
  {
  }

  /** `RISK_USDT * 100 / sl_distance`: the quantity whose loss at the stop, in the
      exchange's units, is the risk budget. Leverage does not enter. */
  function PositionSize(slDistance: real): (size: real)
    requires slDistance != 0.0
    ensures size * slDistance == RiskUsdt * 100.0
    ensures slDistance > 0.0 ==> size > 0.0
  {
    RiskUsdt * 100.0 / slDistance
  }

  /** Python's `dict.get(key, default)`: the default is used only when the key is absent. */
  function DictGet<T>(field: Field<T>, default: Field<T>): (r: Field<T>)
    ensures !field.Missing? ==> r == field
    ensures field.Missing? ==> r == default
  {
    if field.Missing? then default else field
  }

  /** `float(filled_order.get('filled', filled_order.get('amount', size)))`; None when
      `float(None)` raises. */
  function ActualSize(f: FillRecord, requested: real): (r: Option<real>)
    ensures f.filled.Value? ==> r == Some(f.filled.v)
    ensures f.filled.Null? ==> r.None?
    ensures f.filled.Missing? && f.amount.Value? ==> r == Some(f.amount.v)
    ensures f.filled.Missing? && f.amount.Null? ==> r.None?
    ensures f.filled.Missing? && f.amount.Missing? ==> r == Some(requested)
  {
    match DictGet(f.filled, DictGet(f.amount, Value(requested)))
    case Value(q) => Some(q)
    case _ => None
  }

  /** Cancel every open order when there are any; a failed fetch issues nothing. */
  function CancelStale(openOrders: Option<seq<string>>): (acts: seq<OrderAction>)
    ensures |acts| <= 1
    ensures acts == [] <==> openOrders.None? || openOrders.value == []
    ensures acts != [] ==> acts[0] == CancelOrders(openOrders.value)
  {
    if openOrders.Some? && openOrders.value != [] then [CancelOrders(openOrders.value)] else []
  }

  /** The market entry on the signal's side and position leg, sized by the risk budget. */
  function EntryOrder(signal: Signal, atr: real): (a: OrderAction)
    requires atr > 0.0
    ensures a.MarketOrder? && a.side == EntrySide(signal) && a.posSide == Some(PosSideOf(signal))
    ensures a.amount > 0.0 && a.amount * atr == RiskUsdt * 100.0
  {
    MarketOrder(EntrySide(signal), PositionSize(atr), Some(PosSideOf(signal)))
  }

  /** The stop-loss and trailing stop protecting `qty` filled at `entry`. */
  function ProtectiveLegs(signal: Signal, entry: real, atr: real, qty: real): (legs: seq<OrderAction>)
    ensures |legs| == 2 && legs[0].StopLossOrder? && legs[1].TrailingStopOrder?
    ensures forall i :: 0 <= i < 2 ==> legs[i].side == ExitSide(signal) && legs[i].amount == qty
                                        && legs[i].reduceOnly && legs[i].posSide == Some(PosSideOf(signal))
    ensures legs[1].callbackSpread == atr * RR
    ensures signal == LongEntry ==> entry - legs[0].stopLossPrice == atr && legs[1].activePx - entry == atr * RR
    ensures signal == ShortEntry ==> legs[0].stopLossPrice - entry == atr && entry - legs[1].activePx == atr * RR
    ensures atr > 0.0 && signal == LongEntry ==> legs[0].stopLossPrice < entry < legs[1].activePx
    ensures atr > 0.0 && signal == ShortEntry ==> legs[1].activePx < entry < legs[0].stopLossPrice
  {
    var tpDistance := atr * RR;
    [ StopLossOrder(ExitSide(signal), qty, StopPrice(signal, entry, atr), true, Some(PosSideOf(signal))),
      TrailingStopOrder(ExitSide(signal), qty, tpDistance, TargetPrice(signal, entry, tpDistance), true, Some(PosSideOf(signal))) ]
  }

  /** The order-placing part of `strategy` once a signal exists, with stop distance `atr`. */
  function Execute(signal: Signal, atr: real, ex: Exchange): (r: CycleResult)
    requires atr > 0.0
    ensures r.ending != NoSignal
    ensures |CancelStale(ex.openOrders)| < |r.actions|
  {
    var pre := CancelStale(ex.openOrders) + [EntryOrder(signal, atr)];
    if !ex.entryAccepted then CycleResult(pre, Aborted)
    else
      match ConfirmFill(ex.query)
      case Raised => CycleResult(pre, Aborted)
      case Unfilled => CycleResult(pre, Unconfirmed)
      case Confirmed(entry) =>
        match ActualSize(ex.query.fill, PositionSize(atr))
        case None => CycleResult(pre, Aborted)
        case Some(qty) =>
          if qty <= 0.0 then CycleResult(pre, ZeroFill)
          else
            var legs := ProtectiveLegs(signal, entry, atr, qty);
            if !ex.stopAccepted then CycleResult(pre + legs[..1], Aborted)
            else CycleResult(pre + legs, if ex.exitAccepted then Protected else Aborted)
  }

  /** One cycle of `strategy` at UTC hour `hour`. `window` and `positions` feed the live
      detector; `ex` answers the exchange calls. */
  function Strategy(hour: int, window: Option<seq<Bar>>, positions: Option<seq<Position>>, ex: Exchange): (r: CycleResult)
    ensures r.actions == [] <==> r.ending == NoSignal
  {
    var d := Mark.EmaAtrFilter(window, positions, Symbol, Multiplier, AtrThresholdPct);
    match SignalFor(TimeChecker(hour), d.mark)
    case None => CycleResult([], NoSignal)
    case Some(signal) =>
      PositiveRatio(d.atr.value.v, window.value[|window.value| - 1].close);
      Execute(signal, d.atr.value.v, ex)
  }

  /** The quantity filled, when the entry is confirmed and the fill size can be read. */
  function FilledQuantity(ex: Exchange, requested: real): (q: Option<real>)
    ensures q.Some? ==> ConfirmFill(ex.query).Confirmed?
    ensures ConfirmFill(ex.query).Confirmed? ==> q == ActualSize(ex.query.fill, requested)
  {
    if ConfirmFill(ex.query).Confirmed? then ActualSize(ex.query.fill, requested) else None
  }

  /** The calls of a cycle come in a fixed order: the stale-order cancel (if any), the entry,
      then the stop-loss, then the trailing stop — the latter two only for a confirmed fill of
      positive size, and only a prefix of them when the exchange rejects one. */
  lemma ActionOrder(signal: Signal, atr: real, ex: Exchange)
    requires atr > 0.0
    ensures var r := Execute(signal, atr, ex);
            var c := CancelStale(ex.openOrders);
            var q := FilledQuantity(ex, PositionSize(atr));
            && r.actions[..|c| + 1] == c + [EntryOrder(signal, atr)]
            && (|r.actions| > |c| + 1 ==>
                  && q.Some? && q.value > 0.0
                  && var legs := ProtectiveLegs(signal, FillPivot(ex), atr, q.value);
                     |r.actions| <= |c| + 3 && r.actions[|c| + 1..] == legs[..|r.actions| - |c| - 1])
            && (r.ending == Protected <==> |r.actions| == |c| + 3 && ex.exitAccepted)
            && (ex.entryAccepted && q.Some? && q.value > 0.0
                ==> |r.actions| == |c| + (if ex.stopAccepted then 3 else 2))
  {
  }

  /** A rejected entry order aborts the cycle: nothing follows the entry. */
  lemma EntryRejectedAborts(signal: Signal, atr: real, ex: Exchange)
    requires atr > 0.0 && !ex.entryAccepted
    ensures Execute(signal, atr, ex) == CycleResult(CancelStale(ex.openOrders) + [EntryOrder(signal, atr)], Aborted)
  {
  }

  /** An accepted entry without a usable fill stops after the entry: a raising query or an
      unreadable size aborts, an unconfirmed fill ends unconfirmed, a fill of size zero or
      less ends as a zero fill. */
  lemma UnusableFillStopsAfterEntry(signal: Signal, atr: real, ex: Exchange)
    requires atr > 0.0 && ex.entryAccepted
    ensures var pre := CancelStale(ex.openOrders) + [EntryOrder(signal, atr)];
            var fill := FilledQuantity(ex, PositionSize(atr));
            && (ConfirmFill(ex.query).Raised? ==> Execute(signal, atr, ex) == CycleResult(pre, Aborted))
            && (ConfirmFill(ex.query).Unfilled? ==> Execute(signal, atr, ex) == CycleResult(pre, Unconfirmed))
            && (ConfirmFill(ex.query).Confirmed? && fill.None? ==> Execute(signal, atr, ex) == CycleResult(pre, Aborted))
            && (fill.Some? && fill.value <= 0.0 ==> Execute(signal, atr, ex) == CycleResult(pre, ZeroFill))
  {
  }

  /** A confirmed fill of positive size is protected: after the entry come the stop-loss and,
      once the stop is accepted, the trailing stop, both at prices taken from the fill price.
      The cycle ends protected exactly when the exchange accepted both legs. */
  lemma ProtectsConfirmedFill(signal: Signal, atr: real, ex: Exchange)
    requires atr > 0.0 && ex.entryAccepted
    requires FilledQuantity(ex, PositionSize(atr)).Some? && FilledQuantity(ex, PositionSize(atr)).value > 0.0
    ensures var r := Execute(signal, atr, ex);
            var legs := ProtectiveLegs(signal, FillPivot(ex), atr, FilledQuantity(ex, PositionSize(atr)).value);
            && r.actions == CancelStale(ex.openOrders) + [EntryOrder(signal, atr)] + legs[..if ex.stopAccepted then 2 else 1]
            && (r.ending == Protected <==> ex.stopAccepted && ex.exitAccepted)
            && (r.ending != Protected ==> r.ending == Aborted)
  {
  }

  /** Hitting the stop-loss of a position of the requested size loses exactly the risk budget. */
  lemma StopRiskIsBudget(signal: Signal, entry: real, atr: real)
    requires atr > 0.0
    ensures var size := EntryOrder(signal, atr).amount;
            var stop := ProtectiveLegs(signal, entry, atr, size)[0].stopLossPrice;
            && (signal == LongEntry ==> size * (entry - stop) == RiskUsdt * 100.0)
            && (signal == ShortEntry ==> size * (stop - entry) == RiskUsdt * 100.0)
  {
  }

  /** No protective order is ever issued without a confirmed fill of positive size, and
      every protective order covers exactly the filled quantity, not the requested one. */
  lemma NoProtectionWithoutFill(signal: Signal, atr: real, ex: Exchange)
    requires atr > 0.0
    ensures var r := Execute(signal, atr, ex);
            HasProtection(r.actions) ==>
              && ConfirmFill(ex.query).Confirmed?
              && FilledQuantity(ex, PositionSize(atr)).Some?
              && FilledQuantity(ex, PositionSize(atr)).value > 0.0
              && forall i :: 0 <= i < |r.actions| && r.actions[i].IsProtective() ==>
                   r.actions[i].amount == FilledQuantity(ex, PositionSize(atr)).value
  {
    var r := Execute(signal, atr, ex);
    var c := CancelStale(ex.openOrders);
    ActionOrder(signal, atr, ex);
    if HasProtection(r.actions) {
      var i :| 0 <= i < |r.actions| && r.actions[i].IsProtective();
      assert i > |c|;
    }
  }

  /** An unconfirmed or unreadable fill ends the cycle right after the entry order. */
  lemma UnconfirmedStopsAfterEntry(signal: Signal, atr: real, ex: Exchange)
    requires atr > 0.0
    requires !ConfirmFill(ex.query).Confirmed?
    ensures Execute(signal, atr, ex).actions == CancelStale(ex.openOrders) + [EntryOrder(signal, atr)]
    ensures !HasProtection(Execute(signal, atr, ex).actions)
  {
  }

  /** A failed open-order fetch is swallowed: the entry order is still the first call. */
  lemma CancelFailureDoesNotBlockEntry(signal: Signal, atr: real, ex: Exchange)
    requires atr > 0.0 && ex.openOrders.None?
    ensures Execute(signal, atr, ex).actions[0] == EntryOrder(signal, atr)
  {
  }

  /** A short cycle is the long cycle reflected about the fill price: sides swapped, stop
      and activation prices mirrored, quantities, distances and ending unchanged. Since
      mirroring is its own inverse, the long cycle is likewise the short one mirrored. */
  lemma SideSymmetry(atr: real, ex: Exchange)
    requires atr > 0.0
    ensures Execute(ShortEntry, atr, ex) == ReflectResult(Execute(LongEntry, atr, ex), FillPivot(ex))
    ensures Execute(LongEntry, atr, ex) == ReflectResult(Execute(ShortEntry, atr, ex), FillPivot(ex))
  {
    var long := Execute(LongEntry, atr, ex);
    var short := Execute(ShortEntry, atr, ex);
    var mirrored := ReflectResult(long, FillPivot(ex));
    assert |short.actions| == |mirrored.actions|;
    forall i | 0 <= i < |short.actions|
      ensures short.actions[i] == mirrored.actions[i]
    {
    }
    ReflectResultInvolution(long, FillPivot(ex));
  }

  /** A cycle with no signal issues no call at all: no cancel, no order. */
  lemma NoSignalNoActions(hour: int, window: Option<seq<Bar>>, positions: Option<seq<Position>>, ex: Exchange)
    ensures var d := Mark.EmaAtrFilter(window, positions, Symbol, Multiplier, AtrThresholdPct);
            Strategy(hour, window, positions, ex).actions == [] <==> d.mark.None?
  {
  }

  /** A signalled cycle runs the order-placing part with the latest ATR as stop distance;
      in particular a confirmed fill of positive size whose two legs the exchange accepts
      ends protected, with the stop-loss and trailing stop placed after the entry. */
  lemma SignalledCycleProtects(hour: int, window: Option<seq<Bar>>, positions: Option<seq<Position>>, ex: Exchange)
    ensures var d := Mark.EmaAtrFilter(window, positions, Symbol, Multiplier, AtrThresholdPct);
            var s := SignalFor(TimeChecker(hour), d.mark);
            var r := Strategy(hour, window, positions, ex);
            s.Some? ==>
              && d.atr.value.Num? && d.atr.value.v > 0.0
              && r == Execute(s.value, d.atr.value.v, ex)
              && var fill := FilledQuantity(ex, PositionSize(d.atr.value.v));
                 (ex.entryAccepted && ex.stopAccepted && ex.exitAccepted && fill.Some? && fill.value > 0.0 ==>
                    r == CycleResult(CancelStale(ex.openOrders) + [EntryOrder(s.value, d.atr.value.v)]
                                     + ProtectiveLegs(s.value, FillPivot(ex), d.atr.value.v, fill.value), Protected))
  {
    var d := Mark.EmaAtrFilter(window, positions, Symbol, Multiplier, AtrThresholdPct);
    var s := SignalFor(TimeChecker(hour), d.mark);
    if s.Some? {
      PositiveRatio(d.atr.value.v, window.value[|window.value| - 1].close);
      var fill := FilledQuantity(ex, PositionSize(d.atr.value.v));
      if ex.entryAccepted && fill.Some? && fill.value > 0.0 {
        ProtectsConfirmedFill(s.value, d.atr.value.v, ex);
      }
    }
  }

  /** An open position on the symbol means the cycle places nothing. */
  lemma OpenPositionNoActions(hour: int, window: Option<seq<Bar>>, positions: Option<seq<Position>>, ex: Exchange)
    requires positions.Some? && HasOpenPosition(positions.value, Symbol)
    ensures Strategy(hour, window, positions, ex) == CycleResult([], NoSignal)
  {
  }

  /** With a signal, the entry goes in the direction the hour and the mark select, sized so
      that one ATR against it costs the risk budget. */
  lemma EntryFollowsSignal(hour: int, window: Option<seq<Bar>>, positions: Option<seq<Position>>, ex: Exchange)
    ensures var d := Mark.EmaAtrFilter(window, positions, Symbol, Multiplier, AtrThresholdPct);
            var s := SignalFor(TimeChecker(hour), d.mark);
            var r := Strategy(hour, window, positions, ex);
            var c := |CancelStale(ex.openOrders)|;
            s.Some? ==> && d.atr.value.Num? && d.atr.value.v > 0.0
                        && |r.actions| > c
                        && r.actions[c].MarketOrder?
                        && r.actions[c].side == EntrySide(s.value)
                        && r.actions[c].amount * d.atr.value.v == RiskUsdt * 100.0
  {
    var d := Mark.EmaAtrFilter(window, positions, Symbol, Multiplier, AtrThresholdPct);
    var s := SignalFor(TimeChecker(hour), d.mark);
    if s.Some? {
      PositiveRatio(d.atr.value.v, window.value[|window.value| - 1].close);
      ActionOrder(s.value, d.atr.value.v, ex);
    }
  }
}
