/** The order vocabulary shared by both trading scripts: the exchange calls a cycle issues,
    the record returned when an entry order is queried, fill confirmation, the stop-loss and
    take-profit prices derived from a fill, and the mirror image that relates a short trade
    to a long one. */
module Orders {
  import opened Market

  datatype Side = Buy | Sell

  /** The `posSide` parameter of a hedge-mode order. */
  datatype PosSide = LongSide | ShortSide

  /** The trade direction a signal asks for: `long_entry` or `short_entry`. */
  datatype Signal = LongEntry | ShortEntry

  function Opposite(s: Signal): (r: Signal)
    ensures r != s
  {
    if s == LongEntry then ShortEntry else LongEntry
  }

  /** Side of the market entry order: buy to open a long, sell to open a short. */
  function EntrySide(s: Signal): (r: Side)
    ensures r == Buy <==> s == LongEntry
  {
    if s == LongEntry then Buy else Sell
  }

  /** Side of the protective orders, which close the position. */
  function ExitSide(s: Signal): (r: Side)
    ensures r != EntrySide(s)
  {
    if s == LongEntry then Sell else Buy
  }

  /** The position leg a signal opens and protects. */
  function PosSideOf(s: Signal): (r: PosSide)
    ensures r == LongSide <==> s == LongEntry
  {
    if s == LongEntry then LongSide else ShortSide
  }

  /** A state-changing exchange call issued by a strategy cycle. */
  datatype OrderAction =
    | SetLeverage(leverage: int)
    | CancelOrders(ids: seq<string>)
    | MarketOrder(side: Side, amount: real, posSide: Option<PosSide>)
    | StopLossOrder(side: Side, amount: real, stopLossPrice: real, reduceOnly: bool, posSide: Option<PosSide>)
    | TrailingStopOrder(side: Side, amount: real, callbackSpread: real, activePx: real, reduceOnly: bool, posSide: Option<PosSide>)
    | TakeProfitOrder(side: Side, amount: real, price: real, takeProfitPrice: real, reduceOnly: bool)
  {
    /** Orders that protect an open position: stop-loss, trailing stop, take-profit. */
    predicate IsProtective() {
      StopLossOrder? || TrailingStopOrder? || TakeProfitOrder?
    }
  }

  predicate HasProtection(actions: seq<OrderAction>) {
    exists i :: 0 <= i < |actions| && actions[i].IsProtective()
  }

  /** How a strategy cycle ended. `Aborted` is an exception caught at the cycle boundary. */
  datatype Ending = NoSignal | Protected | Unconfirmed | ZeroFill | Aborted

  /** The exchange calls a cycle issued, in order, and how it ended. */
  datatype CycleResult = CycleResult(actions: seq<OrderAction>, ending: Ending)

  /** A key of the order dictionary: absent, present with None, or present with a value. */
  datatype Field<+T> = Missing | Null | Value(v: T)

  /** The fields of a fetched order the strategies read. */
  datatype FillRecord = FillRecord(status: Field<string>, average: Field<real>, filled: Field<real>, amount: Field<real>)

  /** The result of `fetch_order`: it raised, it returned a falsy value, or it returned a record. */
  datatype OrderQuery = QueryRaised | Falsy | Record(fill: FillRecord)

  /** The answers the exchange gives to the calls of one cycle. `openOrders` is None when
      fetching the open orders raised; each boolean says whether that call returned normally. */
  datatype Exchange = Exchange(
    leverageSet: bool,
    openOrders: Option<seq<string>>,
    entryAccepted: bool,
    query: OrderQuery,
    stopAccepted: bool,
    exitAccepted: bool)

  datatype Confirmation = Confirmed(price: real) | Unfilled | Raised

  /** `filled_order and filled_order['status'] == 'closed' and filled_order['average']`:
      a missing key raises, a falsy value means the entry is not confirmed. */
  function ConfirmFill(q: OrderQuery): (c: Confirmation)
    ensures c.Confirmed? <==> q.Record? && q.fill.status == Value("closed") && q.fill.average.Value? && q.fill.average.v != 0.0
    ensures c.Confirmed? ==> c.price == q.fill.average.v
    ensures c.Raised? <==> q.QueryRaised? || (q.Record? && (q.fill.status.Missing? || (q.fill.status == Value("closed") && q.fill.average.Missing?)))
  {
    match q
    case QueryRaised => Raised
    case Falsy => Unfilled
    case Record(f) =>
      if f.status.Missing? then Raised
      else if f.status != Value("closed") then Unfilled
      else if f.average.Missing? then Raised
      else if f.average.Value? && f.average.v != 0.0 then Confirmed(f.average.v)
      else Unfilled
  }

  /** Stop-loss trigger: one stop distance against the trade. */
  function StopPrice(s: Signal, entry: real, slDistance: real): (p: real)
    ensures s == LongEntry ==> entry - p == slDistance
    ensures s == ShortEntry ==> p - entry == slDistance
    ensures slDistance > 0.0 && s == LongEntry ==> p < entry
    ensures slDistance > 0.0 && s == ShortEntry ==> p > entry
  {
    if s == LongEntry then entry - slDistance else entry + slDistance
  }

  /** Take-profit (or trailing activation) price: the profit distance in the trade's favour. */
  function TargetPrice(s: Signal, entry: real, tpDistance: real): (p: real)
    ensures s == LongEntry ==> p - entry == tpDistance
    ensures s == ShortEntry ==> entry - p == tpDistance
    ensures tpDistance > 0.0 && s == LongEntry ==> p > entry
    ensures tpDistance > 0.0 && s == ShortEntry ==> p < entry
  {
    if s == LongEntry then entry + tpDistance else entry - tpDistance
  }

  /** The average fill price of a confirmed entry; the protective prices of a cycle hang on it. */
  function FillPivot(ex: Exchange): (p: real)
    ensures ConfirmFill(ex.query).Confirmed? ==> p == ConfirmFill(ex.query).price
    ensures ConfirmFill(ex.query).Confirmed? ==> p != 0.0
  {
    match ConfirmFill(ex.query)
    case Confirmed(price) => price
    case _ => 0.0
  }

  function FlipSide(side: Side): (r: Side)
    ensures r != side
  {
    if side == Buy then Sell else Buy
  }

  function FlipPosSide(p: Option<PosSide>): (r: Option<PosSide>)
    ensures r.Some? <==> p.Some?
    ensures p.Some? ==> r.value != p.value
  {
    match p
    case None => None
    case Some(LongSide) => Some(ShortSide)
    case Some(ShortSide) => Some(LongSide)
  }

  /** The same action for the opposite trade: sides swapped and every price reflected
      about `pivot`; amounts, distances and flags are kept. */
  function Reflect(a: OrderAction, pivot: real): (r: OrderAction)
    ensures r.IsProtective() <==> a.IsProtective()
  {
    match a
    case SetLeverage(_) => a
    case CancelOrders(_) => a
    case MarketOrder(side, amount, pos) => MarketOrder(FlipSide(side), amount, FlipPosSide(pos))
    case StopLossOrder(side, amount, price, ro, pos) =>
      StopLossOrder(FlipSide(side), amount, 2.0 * pivot - price, ro, FlipPosSide(pos))
    case TrailingStopOrder(side, amount, spread, activePx, ro, pos) =>
      TrailingStopOrder(FlipSide(side), amount, spread, 2.0 * pivot - activePx, ro, FlipPosSide(pos))
    case TakeProfitOrder(side, amount, price, trigger, ro) =>
      TakeProfitOrder(FlipSide(side), amount, 2.0 * pivot - price, 2.0 * pivot - trigger, ro)
  }

  function ReflectAll(actions: seq<OrderAction>, pivot: real): (r: seq<OrderAction>)
    ensures |r| == |actions|
    ensures forall i :: 0 <= i < |actions| ==> r[i] == Reflect(actions[i], pivot)
  {
    seq(|actions|, i requires 0 <= i < |actions| => Reflect(actions[i], pivot))
  }

  function ReflectResult(c: CycleResult, pivot: real): (r: CycleResult)
    ensures r.ending == c.ending
    ensures HasProtection(r.actions) <==> HasProtection(c.actions)
  {
    CycleResult(ReflectAll(c.actions, pivot), c.ending)
  }

  /** Reflecting twice about the same pivot gives back the original action. */
  lemma ReflectInvolution(a: OrderAction, pivot: real)
    ensures Reflect(Reflect(a, pivot), pivot) == a
  {
  }

  /** Mirroring a whole cycle twice about the same pivot gives back the cycle, so a mirror
      relation between two cycles holds in both directions. */
  lemma ReflectResultInvolution(c: CycleResult, pivot: real)
    ensures ReflectResult(ReflectResult(c, pivot), pivot) == c
  {
    var back := ReflectResult(ReflectResult(c, pivot), pivot);
    forall i | 0 <= i < |c.actions|
      ensures back.actions[i] == c.actions[i]
    {
      ReflectInvolution(c.actions[i], pivot);
    }
  }

  /** The protective prices of a short trade are those of the long trade reflected about the entry. */
  lemma PricesMirror(entry: real, distance: real)
    ensures StopPrice(ShortEntry, entry, distance) == 2.0 * entry - StopPrice(LongEntry, entry, distance)
    ensures TargetPrice(ShortEntry, entry, distance) == 2.0 * entry - TargetPrice(LongEntry, entry, distance)
  {
  }
}
