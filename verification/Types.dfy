/** The entities of one prediction window's market. */
module Types {

  type User = string

  datatype Side = Yes | No

  datatype OrderStatus = Open | Filled | Cancelled

  /** A row of prediction_orders; its id is its position in the table. */
  datatype Order = Order(user: User, side: Side, price: int, size: int, filled: int, status: OrderStatus)

  /** A row of prediction_pending_fills: one match between a resting and an incoming order. */
  datatype Match = Match(maker: nat, taker: nat, makerUser: User, takerUser: User,
                         makerSide: Side, takerSide: Side, price: int, size: int)

  /** A row of prediction_positions, unique in (user, side). */
  datatype Position = Position(user: User, side: Side, shares: int, avgPrice: int)

  /** What became of a remote call or a commit, as seen from this service. */
  datatype Outcome = Acked | ReplyLost | NeverArrived

  /**
   Names a value for the verifier; it is true of everything.  It serves one device,
   used wherever a definition is costly to unfold: instead of P(x) a predicate says
   "for every u that is Seen and equal to x, P(u)", which means the same but is
   unfolded only in a proof that names x; and a function that is costly to unfold is
   given as the value chosen with that property.  Beside each such definition a lemma
   states that it is the plain one.
   */
  ghost predicate Seen<T>(x: T)
  {
    true
  }

  function Opposite(s: Side): Side
  {
    if s == Yes then No else Yes
  }

  function Min(a: int, b: int): int
  {
    if a <= b then a else b
  }
}
