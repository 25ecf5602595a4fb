/** The exchange-independent order-book messages every adapter produces
    (core/src/order_book/data_types.rs), and the fixed-capacity vector those
    adapters push into. */
module OrderData {

  datatype Side = Buy | Sell

  /** One price level. `amount` is carried through unchanged and never
      computed with, so it is kept as an opaque number. */
  datatype PriceLevel = PriceLevel(level: nat, amount: real, sequence: int)

  datatype Change = Change(side: Side, priceLevel: PriceLevel)

  datatype Snapshot = Snapshot(bids: seq<PriceLevel>, asks: seq<PriceLevel>)

  datatype Update = Update(productId: string, time: string, changes: seq<Change>)

  /** What an adapter hands to the order book it feeds: a full snapshot to
      start from, or an incremental update. */
  datatype BookInput = Init(snapshot: Snapshot) | Apply(update: Update)

  /** `let _ = v.push(x)` on a `heapless::Vec` of capacity `cap`: the element
      is appended when there is room and silently dropped otherwise. */
  function Push<T>(v: seq<T>, x: T, cap: nat): (w: seq<T>)
    ensures |v| < cap ==> w == v + [x]
    ensures |v| >= cap ==> w == v
  {
    if |v| < cap then v + [x] else v
  }

  /** What is left of `xs` after pushing it element by element into an empty
      vector of capacity `cap`: its first `cap` elements. */
  function Take<T>(xs: seq<T>, cap: nat): (ys: seq<T>)
    ensures |ys| <= cap && |ys| <= |xs|
  {
    if |xs| <= cap then xs else xs[..cap]
  }

  /** One more push keeps the vector equal to the prefix of what was pushed. */
  lemma {:induction false} PushTake<T>(xs: seq<T>, x: T, cap: nat)
    ensures Push(Take(xs, cap), x, cap) == Take(xs + [x], cap)
  {
    if |xs| < cap {
      assert Take(xs, cap) == xs;
      assert Take(xs + [x], cap) == xs + [x];
    } else {
      assert |Take(xs, cap)| == cap;
      assert (xs + [x])[..cap] == xs[..cap];
    }
  }

  /** Nothing is dropped while the input fits. */
  lemma TakeAll<T>(xs: seq<T>, cap: nat)
    requires |xs| <= cap
    ensures Take(xs, cap) == xs
  {
  }

  /** The truncated vector is a prefix: its elements are the input's, in order. */
  lemma TakePrefix<T>(xs: seq<T>, cap: nat)
    ensures |Take(xs, cap)| == if |xs| <= cap then |xs| else cap
    ensures forall i :: 0 <= i < |Take(xs, cap)| ==> Take(xs, cap)[i] == xs[i]
  {
  }
}
