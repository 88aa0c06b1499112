/**
 * The `NewOrder` builder: fluent setters that take the builder by value and
 * return it changed, and `build`, which projects it into the order
 * parameters the program expects.
 */
module Orders {
  import opened Ints
  import opened Markets

  datatype OrderType = Market | Limit | TriggerMarket | TriggerLimit | Oracle
  datatype PositionDirection = Long | Short
  datatype PostOnlyParam = None | MustPostOnly | TryPostOnly | Slide

  /** `PositionDirection::default()` as declared by the program crate. */
  const DefaultDirection: PositionDirection := Long

  /** The builder's accumulated intent. */
  datatype NewOrder = NewOrder(
    order_type: OrderType,
    direction: PositionDirection,
    reduce_only: bool,
    market_id: MarketId,
    post_only: bool,
    ioc: bool,
    amount: U64,
    price: U64)

  /**
   * The fields of `OrderParams` that `build` sets; the remaining ones are
   * left at their defaults.
   */
  datatype OrderParams = OrderParams(
    order_type: OrderType,
    market_index: U16,
    market_type: MarketType,
    price: U64,
    base_asset_amount: U64,
    reduce_only: bool,
    direction: PositionDirection,
    immediate_or_cancel: bool,
    post_only: PostOnlyParam)

  /** Every field other than the order type and the market is at its default. */
  predicate RestIsDefault(o: NewOrder) {
    && o.direction == DefaultDirection
    && !o.reduce_only && !o.post_only && !o.ioc
    && o.amount == 0 && o.price == 0
  }

  /** `NewOrder::market`: a market order on `m`, everything else default. */
  function MarketOrder(m: MarketId): (r: NewOrder)
    ensures r.order_type == Market && r.market_id == m && RestIsDefault(r)
  {
    NewOrder(Market, DefaultDirection, false, m, false, false, 0, 0)
  }

  /** `NewOrder::limit`: a limit order on `m`, everything else default. */
  function LimitOrder(m: MarketId): (r: NewOrder)
    ensures r.order_type == Limit && r.market_id == m && RestIsDefault(r)
  {
    NewOrder(Limit, DefaultDirection, false, m, false, false, 0, 0)
  }

  /**
   * `amount`: a negative amount is a short; zero and above are long. The
   * magnitude is stored unsigned, so the i64 minimum becomes 2^63.
   * Nothing but the direction and the amount changes.
   */
  function Amount(o: NewOrder, a: I64): (r: NewOrder)
    ensures r.direction == Short <==> a < 0
    ensures r.amount as int == if a < 0 then -(a as int) else a as int
    ensures r.(direction := o.direction, amount := o.amount) == o
  {
    o.(direction := if a >= 0 then Long else Short, amount := UnsignedAbs(a))
  }

  /** `price`: sets the price and nothing else. */
  function Price(o: NewOrder, p: U64): (r: NewOrder)
    ensures r.price == p && r.(price := o.price) == o
  {
    o.(price := p)
  }

  /** `reduce_only`: sets the flag and nothing else. */
  function ReduceOnly(o: NewOrder, flag: bool): (r: NewOrder)
    ensures r.reduce_only == flag && r.(reduce_only := o.reduce_only) == o
  {
    o.(reduce_only := flag)
  }

  /** `ioc`: sets immediate-or-cancel and nothing else. */
  function Ioc(o: NewOrder, flag: bool): (r: NewOrder)
    ensures r.ioc == flag && r.(ioc := o.ioc) == o
  {
    o.(ioc := flag)
  }

  /** `post_only`: sets the post-only flag and nothing else. */
  function PostOnly(o: NewOrder, flag: bool): (r: NewOrder)
    ensures r.post_only == flag && r.(post_only := o.post_only) == o
  {
    o.(post_only := flag)
  }

  /** `build`: the order parameters carrying the builder's fields; a set post-only flag asks for `TryPostOnly`. */
  function Build(o: NewOrder): (p: OrderParams)
    ensures p.order_type == o.order_type && p.direction == o.direction
    ensures p.market_index == o.market_id.index && p.market_type == o.market_id.kind
    ensures p.price == o.price && p.base_asset_amount == o.amount
    ensures p.reduce_only == o.reduce_only && p.immediate_or_cancel == o.ioc
    ensures p.post_only == TryPostOnly || p.post_only == None
    ensures p.post_only == TryPostOnly <==> o.post_only
  {
    OrderParams(
      o.order_type,
      o.market_id.index,
      o.market_id.kind,
      o.price,
      o.amount,
      o.reduce_only,
      o.direction,
      o.ioc,
      if o.post_only then TryPostOnly else None)
  }

  /** Reads a builder back from the parameters `Build` produces. */
  function Unbuild(p: OrderParams): NewOrder {
    NewOrder(
      p.order_type,
      p.direction,
      p.reduce_only,
      MarketId(p.market_index, p.market_type),
      p.post_only == TryPostOnly,
      p.immediate_or_cancel,
      p.base_asset_amount,
      p.price)
  }

  /** `build` loses nothing: every field of the builder can be read back from the parameters. */
  lemma BuildRoundTrip(o: NewOrder)
    ensures Unbuild(Build(o)) == o
  {
  }

  /** Hence two different builders never build the same parameters. */
  lemma BuildInjective(o1: NewOrder, o2: NewOrder)
    requires Build(o1) == Build(o2)
    ensures o1 == o2
  {
    BuildRoundTrip(o1);
    BuildRoundTrip(o2);
  }

  /** The signed size the program reads from direction and unsigned amount. */
  function SignedSize(p: OrderParams): int {
    if p.direction == Short then -(p.base_asset_amount as int) else p.base_asset_amount as int
  }

  /** Direction and magnitude together give back the signed amount passed to `amount`, for every i64. */
  lemma AmountRoundTrip(o: NewOrder, a: I64)
    ensures SignedSize(Build(Amount(o, a))) == a as int
    ensures Build(Amount(o, a)).direction == Long <==> a >= 0
  {
  }

  /** `limit(m).amount(-5).build()` is a short of 5 and `.amount(5)` a long of 5, on market `m`. */
  lemma LimitAmountExamples(m: MarketId)
    ensures var p := Build(Amount(LimitOrder(m), -5));
      p.direction == Short && p.base_asset_amount == 5 && p.order_type == Limit
      && p.market_index == m.index && p.market_type == m.kind
    ensures var p := Build(Amount(LimitOrder(m), 5));
      p.direction == Long && p.base_asset_amount == 5 && p.order_type == Limit
    ensures var p := Build(Amount(LimitOrder(m), 0));
      p.direction == Long && p.base_asset_amount == 0
  {
  }

  /** The i64 minimum is a short whose unsigned magnitude 2^63 does not fit back into an i64. */
  lemma AmountOfMinimum(o: NewOrder)
    ensures Amount(o, -TWO_63).direction == Short && Amount(o, -TWO_63).amount == TWO_63
  {
  }

  /** Setters of different fields commute, so the chain order of the fluent calls does not matter. */
  lemma SettersCommute(o: NewOrder, a: I64, p: U64, r: bool, i: bool, po: bool)
    ensures Price(Amount(o, a), p) == Amount(Price(o, p), a)
    ensures ReduceOnly(Ioc(o, i), r) == Ioc(ReduceOnly(o, r), i)
    ensures PostOnly(Price(o, p), po) == Price(PostOnly(o, po), p)
    ensures Ioc(PostOnly(o, po), i) == PostOnly(Ioc(o, i), po)
  {
  }

  /** Setting a field twice keeps only the last value. */
  lemma LastSetterWins(o: NewOrder, a1: I64, a2: I64, p1: U64, p2: U64, f1: bool, f2: bool)
    ensures Amount(Amount(o, a1), a2) == Amount(o, a2)
    ensures Price(Price(o, p1), p2) == Price(o, p2)
    ensures ReduceOnly(ReduceOnly(o, f1), f2) == ReduceOnly(o, f2)
    ensures Ioc(Ioc(o, f1), f2) == Ioc(o, f2)
    ensures PostOnly(PostOnly(o, f1), f2) == PostOnly(o, f2)
  {
  }
}
