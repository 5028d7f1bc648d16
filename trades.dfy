/** Fills reported by the source session and the market orders the copier
    derives from them (main.py, copy_trade). */
module Trades {

  datatype Option<+T> = None | Some(value: T)

  /** The instrument a fill refers to; the copier hands it on unchanged. */
  datatype Contract = Contract(symbol: string)

  /** The execution part of a fill: its identifier, its direction as the
      brokerage reports it ("BOT" or "SLD") and its size. */
  datatype Execution = Execution(execId: string, side: string, shares: real)

  /** One entry of the source session's cumulative fill listing. */
  datatype Fill = Fill(contract: Contract, execution: Execution) {
    function ExecId(): string { execution.execId }
  }

  /** The direction of a copy order. */
  datatype Action = Buy | Sell {
    /** The action string the market order carries. */
    function Name(): string {
      match this
      case Buy => "BUY"
      case Sell => "SELL"
    }
  }

  /** A market order (no price, no limit) for `quantity` units of `contract`,
      as submitted to the destination session. */
  datatype Order = Order(contract: Contract, action: Action, quantity: real)

  /** The execution side that an order action copies. */
  function ExecutionSide(a: Action): string {
    match a
    case Buy => "BOT"
    case Sell => "SLD"
  }

  /** The side mapping of copy_trade: "BOT" becomes a buy, "SLD" a sell, and
      every other side is rejected as an unknown action. */
  function ActionFor(side: string): (r: Option<Action>)
    ensures r.Some? <==> side == "BOT" || side == "SLD"
    ensures r.Some? ==> ExecutionSide(r.value) == side
    ensures r.Some? ==> r.value.Name() == (if side == "BOT" then "BUY" else "SELL")
  {
    if side == "BOT" then Some(Buy)
    else if side == "SLD" then Some(Sell)
    else None
  }

  /** Every action is reached from exactly one side, and that side maps back to it. */
  lemma ActionForInverse(a: Action, side: string)
    ensures ActionFor(ExecutionSide(a)) == Some(a)
    ensures ActionFor(side) == Some(a) <==> side == ExecutionSide(a)
  {
  }

  /** The order copy_trade submits for one execution, or None when the side
      is unknown and nothing is submitted. */
  function OrderFor(contract: Contract, execution: Execution): (r: Option<Order>)
    ensures r.Some? <==> execution.side == "BOT" || execution.side == "SLD"
    ensures r.Some? ==> r.value.contract == contract
    ensures r.Some? ==> r.value.quantity == execution.shares
    ensures r.Some? ==> ExecutionSide(r.value.action) == execution.side
  {
    match ActionFor(execution.side)
    case None => None
    case Some(action) => Some(Order(contract, action, execution.shares))
  }

  /** A fill whose side copy_trade knows how to translate. */
  predicate Copyable(f: Fill) {
    OrderFor(f.contract, f.execution).Some?
  }

  /** The orders submitted for a run of fills, in order: one per fill with a
      known side, none for the others. */
  function Copies(fills: seq<Fill>): (r: seq<Order>)
    ensures |r| <= |fills|
  {
    if fills == [] then []
    else
      var head := match OrderFor(fills[0].contract, fills[0].execution)
                  case None => []
                  case Some(o) => [o];
      head + Copies(fills[1..])
  }

  /** When every fill has a known side, exactly one order is submitted per
      fill, and the i-th order is the copy of the i-th fill. */
  lemma {:induction false} CopiesOnePerFill(fills: seq<Fill>)
    requires forall f | f in fills :: Copyable(f)
    ensures |Copies(fills)| == |fills|
    ensures forall i | 0 <= i < |fills| ::
              OrderFor(fills[i].contract, fills[i].execution) == Some(Copies(fills)[i])
    decreases |fills|
  {
    if fills != [] {
      assert fills[0] in fills && forall f | f in fills[1..] :: f in fills;
      CopiesOnePerFill(fills[1..]);
    }
  }

  /** The orders of consecutive runs of fills are the concatenation of the
      orders of each run. */
  lemma {:induction false} CopiesAppend(a: seq<Fill>, b: seq<Fill>)
    ensures Copies(a + b) == Copies(a) + Copies(b)
  {
    if a != [] {
      assert (a + b)[0] == a[0];
      assert (a + b)[1..] == a[1..] + b;
      CopiesAppend(a[1..], b);
    } else {
      assert a + b == b;
    }
  }
}
