/** The Coinbase adapter (core/src/order_book/clients/coinbase/coinbase_adapter.rs):
    converts Coinbase's level-2 messages into the common order-book types and
    hands them to the adapter's own order book. That book is not part of this
    model: the adapter records, in order, what it has been handed. */
module CoinbaseAdapter {
  import OD = OrderData

  /** Coinbase's own message types (core/src/order_book/clients/coinbase/data_types.rs),
      with the side of a change as the two-valued side the adapter matches on. */
  datatype Side = Buy | Sell
  datatype PriceLevel = PriceLevel(level: nat, amount: real)
  datatype Change = Change(side: Side, priceLevel: PriceLevel)
  datatype Snapshot = Snapshot(productId: string, bids: seq<PriceLevel>, asks: seq<PriceLevel>)
  datatype Update = Update(productId: string, time: string, changes: seq<Change>)

  const SnapshotCapacity: nat := 10000
  const UpdateCapacity: nat := 32

  function CommonSide(side: Side): (r: OD.Side)
    ensures r == OD.Buy <==> side == Buy
    ensures r == OD.Sell <==> side == Sell
  {
    match side
    case Buy => OD.Buy
    case Sell => OD.Sell
  }

  /** The common level for a Coinbase level: same level and amount, sequence 0. */
  function Level(p: PriceLevel): (q: OD.PriceLevel)
    ensures q.level == p.level && q.amount == p.amount && q.sequence == 0
  {
    OD.PriceLevel(p.level, p.amount, 0)
  }

  function Levels(ps: seq<PriceLevel>): (qs: seq<OD.PriceLevel>)
    ensures |qs| == |ps|
    ensures forall i :: 0 <= i < |ps| ==> qs[i] == Level(ps[i])
  {
    seq(|ps|, i requires 0 <= i < |ps| => Level(ps[i]))
  }

  /** One common change per Coinbase change, in order. */
  function Converted(cs: seq<Change>): (r: seq<OD.Change>)
    ensures |r| == |cs|
    ensures forall i :: 0 <= i < |cs| ==> r[i] == OD.Change(CommonSide(cs[i].side), Level(cs[i].priceLevel))
  {
    seq(|cs|, i requires 0 <= i < |cs| => OD.Change(CommonSide(cs[i].side), Level(cs[i].priceLevel)))
  }

  /** Only the first 32 changes of an update survive, in order. */
  lemma UpdatePrefix(cs: seq<Change>)
    ensures var r := OD.Take(Converted(cs), UpdateCapacity);
            |r| == (if |cs| <= UpdateCapacity then |cs| else UpdateCapacity) &&
            forall i :: 0 <= i < |r| ==> r[i] == OD.Change(CommonSide(cs[i].side), Level(cs[i].priceLevel))
  {
    OD.TakePrefix(Converted(cs), UpdateCapacity);
  }

  /** One loop of `init_order_book`: the levels copied into a vector of
      capacity 10000. */
  method CopyLevels(ps: seq<PriceLevel>) returns (out: seq<OD.PriceLevel>)
    ensures out == OD.Take(Levels(ps), SnapshotCapacity)
  {
    out := [];
    for i := 0 to |ps|
      invariant out == OD.Take(Levels(ps[..i]), SnapshotCapacity)
    {
      assert Levels(ps[..i + 1]) == Levels(ps[..i]) + [Level(ps[i])];
      OD.PushTake(Levels(ps[..i]), Level(ps[i]), SnapshotCapacity);
      out := OD.Push(out, OD.PriceLevel(ps[i].level, ps[i].amount, 0), SnapshotCapacity);
    }
    assert ps[..|ps|] == ps;
  }

  /** The loop of `update`: every change converted, pushed into a vector of
      capacity 32. */
  method ConvertChanges(changes: seq<Change>) returns (out: seq<OD.Change>)
    ensures out == OD.Take(Converted(changes), UpdateCapacity)
  {
    out := [];
    for i := 0 to |changes|
      invariant out == OD.Take(Converted(changes[..i]), UpdateCapacity)
    {
      var change := changes[i];
      var side := match change.side case Buy => OD.Buy case Sell => OD.Sell;
      assert Converted(changes[..i + 1]) == Converted(changes[..i]) + [OD.Change(side, Level(change.priceLevel))];
      OD.PushTake(Converted(changes[..i]), OD.Change(side, Level(change.priceLevel)), UpdateCapacity);
      out := OD.Push(out, OD.Change(side, OD.PriceLevel(change.priceLevel.level, change.priceLevel.amount, 0)), UpdateCapacity);
    }
    assert changes[..|changes|] == changes;
  }

  class CoinbaseAdapter {
    /** Everything handed to the order book so far, in order. */
    var delivered: seq<OD.BookInput>

    /** `CoinbaseAdapter::new`: a fresh book that has received nothing. */
    constructor ()
      ensures delivered == []
    {
      delivered := [];
    }

    /** `init_order_book`: bids and asks copied, each cut at 10000 levels,
        handed over as one snapshot. */
    method InitOrderBook(snapshot: Snapshot)
      modifies this
      ensures delivered == old(delivered) + [OD.Init(OD.Snapshot(OD.Take(Levels(snapshot.bids), SnapshotCapacity),
                                                                 OD.Take(Levels(snapshot.asks), SnapshotCapacity)))]
    {
      var bids := CopyLevels(snapshot.bids);
      var asks := CopyLevels(snapshot.asks);
      delivered := delivered + [OD.Init(OD.Snapshot(bids, asks))];
    }

    /** `update`: the changes converted and cut at 32, handed over with empty
        product id and time. */
    method Update(update: Update)
      modifies this
      ensures delivered == old(delivered) + [OD.Apply(OD.Update("", "", OD.Take(Converted(update.changes), UpdateCapacity)))]
    {
      var changes := ConvertChanges(update.changes);
      delivered := delivered + [OD.Apply(OD.Update("", "", changes))];
    }
  }
}
