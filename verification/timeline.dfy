/**
 * `TimelineTracker`: an append-only execution log. Each step is the action the
 * tracker records; wall-clock timestamps and the emoji markers are not modelled.
 */
module Timeline {

  /** The actions the sell leg and the buy sequence record. */
  datatype Event =
    | SellPlaced(qty: int, price: real)
    | SellFilled(qty: int, price: real)
    | SellPartlyFilled(filled: int, ordered: int, price: real)
    | SellCancelled(qty: int)
    | BuyPlaced(qty: int, price: real)
    | BuyRepriced(price: real)
    | BuyRepricedToSell(price: real)
    | BuyFilled(qty: int, price: real)
    | BuyAbandoned
  {
    predicate IsSell() {
      SellPlaced? || SellFilled? || SellPartlyFilled? || SellCancelled?
    }
  }

  datatype Log = Log(steps: seq<Event>)

  const Empty := Log([])

  /** `add_step`: one more entry at the end, every earlier entry kept in place. */
  function AddStep(t: Log, action: Event): (r: Log)
    ensures |r.steps| == |t.steps| + 1
    ensures r.steps[..|t.steps|] == t.steps
    ensures r.steps[|t.steps|] == action
  {
    Log(t.steps + [action])
  }

  /** `t` is an earlier state of the log `u`. */
  predicate IsPrefix(t: Log, u: Log) {
    |t.steps| <= |u.steps| && u.steps[..|t.steps|] == t.steps
  }

  /** `sell_timeline.timeline + buy_timeline.timeline`. */
  function Combine(first: Log, second: Log): (r: Log)
    ensures |r.steps| == |first.steps| + |second.steps|
    ensures IsPrefix(first, r)
    ensures r.steps[|first.steps|..] == second.steps
  {
    Log(first.steps + second.steps)
  }
}
