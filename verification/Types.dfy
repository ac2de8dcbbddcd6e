/** Values shared by every part of the model: sides, orders, stop orders,
    trades, command inputs and the errors the engine can return. */
module Types {

  datatype Option<+T> = None | Some(value: T)

  datatype Result<+T, +E> = Ok(value: T) | Err(error: E)

  datatype Side = Buy | Sell

  datatype OrderType = Limit | Market | StopMarket | StopLimit | TrailingStopMarket

  datatype Status = Open | PartiallyFilled | Filled | Cancelled | Triggered

  datatype Error =
    | OrderExists
    | OrderNotFound
    | OrderInactive
    | EmptyOrderId
    | EmptyUserId
    | EmptySymbol
    | InvalidSide
    | BadQuantity
    | BadTimestamp
    | BadPrice
    | PricedMarketOrder
    | BadTrigger
    | BadTrailingAmount
    | NoTradeYet
    | CycleLimit
    | FillTooLarge
    | UnsupportedCommand
    | MalformedPayload
    | NotOnLevel
    | AlreadyOnLevel
    | WrongPrice
    | LevelUnderflow

  /** The payload of a placing command. `side` is None for any string that is
      neither of the two sides; the other options are the nullable fields. */
  datatype Input = Input(
    orderId: string,
    userId: string,
    side: Option<Side>,
    price: Option<int>,
    trigger: Option<int>,
    trailingAmount: Option<int>,
    quantity: int,
    timestamp: int)

  datatype Order = Order(
    id: string,
    user: string,
    symbol: string,
    side: Side,
    typ: OrderType,
    price: Option<int>,
    initial: int,
    remaining: int,
    status: Status,
    timestamp: int)

  datatype Stop = Stop(
    id: string,
    user: string,
    symbol: string,
    side: Side,
    typ: OrderType,
    trigger: int,
    price: Option<int>,
    trailingAmount: Option<int>,
    peak: Option<int>,
    valley: Option<int>,
    quantity: int,
    remaining: int,
    status: Status,
    timestamp: int)

  datatype Trade = Trade(
    symbol: string,
    price: int,
    quantity: int,
    buyId: string,
    sellId: string,
    aggressor: Side,
    timestamp: int)

  function Min(a: int, b: int): int {
    if a <= b then a else b
  }

  function Max(a: int, b: int): int {
    if a >= b then a else b
  }

  // ------------------------------------------------------------- white space

  /** Code points that both engines trim. */
  predicate SharedSpace(u: int) {
    9 <= u <= 13 || 0x2000 <= u <= 0x200A || u in {0x20, 0xA0, 0x1680, 0x2028, 0x2029, 0x202F, 0x205F, 0x3000}
  }

  /** The Go worker trims a next line character. */
  predicate GoSpace(u: int) {
    SharedSpace(u) || u == 0x85
  }

  /** The Node engine trims a byte order mark. */
  predicate NodeSpace(u: int) {
    SharedSpace(u) || u == 0xFEFF
  }

  /** Where an item first occurs; the length of the sequence if it does not. */
  function PositionOf<T(==)>(s: seq<T>, x: T): (k: nat)
    ensures k <= |s|
    ensures k < |s| ==> s[k] == x
    ensures forall i :: 0 <= i < k ==> s[i] != x
  {
    if s == [] || s[0] == x then 0 else 1 + PositionOf(s[1..], x)
  }
}
