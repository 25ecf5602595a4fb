/** The Kraken adapter (core/src/order_book/clients/kraken/kraken_adapter.rs):
    converts Kraken's book messages into the common order-book types and
    hands them to the adapter's own order book. That book is not part of this
    model: the adapter records, in order, what it has been handed. */
module KrakenAdapter {
  import opened Wrappers
  import OD = OrderData

  /** Kraken's own message types (core/src/order_book/clients/kraken/data_types.rs).
      The timestamp is carried as an opaque number. */
  datatype PriceLevel = PriceLevel(level: nat, amount: real, timestamp: int, sequence: int, republished: bool)
  datatype Content = Content(asks: Option<seq<PriceLevel>>, bids: Option<seq<PriceLevel>>)

  const SnapshotCapacity: nat := 10000
  const UpdateCapacity: nat := 32

  /** The common level for a Kraken level: same level and amount, sequence 0;
      timestamp, sequence and republished flag are dropped. */
  function Level(p: PriceLevel): (q: OD.PriceLevel)
    ensures q.level == p.level && q.amount == p.amount && q.sequence == 0
  {
    OD.PriceLevel(p.level, p.amount, 0)
  }

  function Levels(ps: seq<PriceLevel>): (qs: seq<OD.PriceLevel>)
    ensures |qs| == |ps|
    ensures forall i :: 0 <= i < |ps| ==> qs[i] == Level(ps[i])
  {
    seq(|ps|, i requires 0 <= i < |ps| => Level(ps[i]))
  }

  /** A side's levels as changes on that side; an absent side gives none. */
  function Tagged(side: OD.Side, ps: Option<seq<PriceLevel>>): (cs: seq<OD.Change>)
    ensures ps.None? ==> cs == []
    ensures ps.Some? ==> |cs| == |ps.value| && forall i :: 0 <= i < |ps.value| ==> cs[i] == OD.Change(side, Level(ps.value[i]))
  {
    match ps
    case None => []
    case Some(levels) => seq(|levels|, i requires 0 <= i < |levels| => OD.Change(side, Level(levels[i])))
  }

  /** The changes of an update before truncation: bids as Buy, then asks as
      Sell. */
  function Changes(u: Content): seq<OD.Change> {
    Tagged(OD.Buy, u.bids) + Tagged(OD.Sell, u.asks)
  }

  /** What survives of the update: the first `min(32, |bids| + |asks|)`
      changes, bids before asks. */
  lemma UpdatePrefix(u: Content)
    ensures var n := (if u.bids.Some? then |u.bids.value| else 0) + (if u.asks.Some? then |u.asks.value| else 0);
            var cs := OD.Take(Changes(u), UpdateCapacity);
            |cs| == (if n <= UpdateCapacity then n else UpdateCapacity) &&
            forall i :: 0 <= i < |cs| ==> cs[i] == Changes(u)[i]
  {
    OD.TakePrefix(Changes(u), UpdateCapacity);
  }

  /** One loop of `init_order_book`: the levels copied into a vector of
      capacity 10000. */
  method CopyLevels(ps: seq<PriceLevel>) returns (out: seq<OD.PriceLevel>)
    ensures out == OD.Take(Levels(ps), SnapshotCapacity)
  {
    out := [];
    for i := 0 to |ps|
      invariant out == OD.Take(Levels(ps[..i]), SnapshotCapacity)
    {
      assert Levels(ps[..i + 1]) == Levels(ps[..i]) + [Level(ps[i])];
      OD.PushTake(Levels(ps[..i]), Level(ps[i]), SnapshotCapacity);
      out := OD.Push(out, OD.PriceLevel(ps[i].level, ps[i].amount, 0), SnapshotCapacity);
    }
    assert ps[..|ps|] == ps;
  }

  /** One side's loop of `update`: the side's levels, if present, pushed as
      changes onto `out`, a vector of capacity 32. */
  method PushSide(out: seq<OD.Change>, side: OD.Side, ps: Option<seq<PriceLevel>>, ghost before: seq<OD.Change>)
      returns (res: seq<OD.Change>)
    requires out == OD.Take(before, UpdateCapacity)
    ensures res == OD.Take(before + Tagged(side, ps), UpdateCapacity)
  {
    res := out;
    if ps.Some? {
      var levels := ps.value;
      for i := 0 to |levels|
        invariant res == OD.Take(before + Tagged(side, Some(levels[..i])), UpdateCapacity)
      {
        var c := OD.Change(side, Level(levels[i]));
        assert before + Tagged(side, Some(levels[..i + 1])) == (before + Tagged(side, Some(levels[..i]))) + [c];
        OD.PushTake(before + Tagged(side, Some(levels[..i])), c, UpdateCapacity);
        res := OD.Push(res, OD.Change(side, OD.PriceLevel(levels[i].level, levels[i].amount, 0)), UpdateCapacity);
      }
      assert levels[..|levels|] == levels;
    } else {
      assert before + Tagged(side, ps) == before;
    }
  }

  /** The two loops of `update`. */
  method ConvertChanges(u: Content) returns (out: seq<OD.Change>)
    ensures out == OD.Take(Changes(u), UpdateCapacity)
  {
    out := PushSide([], OD.Buy, u.bids, []);
    assert [] + Tagged(OD.Buy, u.bids) == Tagged(OD.Buy, u.bids);
    out := PushSide(out, OD.Sell, u.asks, Tagged(OD.Buy, u.bids));
  }

  class KrakenAdapter {
    /** Everything handed to the order book so far, in order. */
    var delivered: seq<OD.BookInput>

    /** `KrakenAdapter::new`: a fresh book that has received nothing. */
    constructor ()
      ensures delivered == []
    {
      delivered := [];
    }

    /** `init_order_book`: both sides must be present (`unwrap` panics
        otherwise, before the book is touched); each side is copied, cut at
        10000 levels, and handed over as one snapshot. */
    method InitOrderBook(snapshot: Content) returns (accepted: bool)
      modifies this
      ensures accepted <==> snapshot.bids.Some? && snapshot.asks.Some?
      ensures !accepted ==> delivered == old(delivered)
      ensures accepted ==>
                delivered == old(delivered) + [OD.Init(OD.Snapshot(OD.Take(Levels(snapshot.bids.value), SnapshotCapacity),
                                                                   OD.Take(Levels(snapshot.asks.value), SnapshotCapacity)))]
    {
      if snapshot.bids.None? {
        return false;
      }
      var bids := CopyLevels(snapshot.bids.value);
      if snapshot.asks.None? {
        return false;
      }
      var asks := CopyLevels(snapshot.asks.value);
      delivered := delivered + [OD.Init(OD.Snapshot(bids, asks))];
      return true;
    }

    /** `update`: the present sides as changes, bids first, cut at 32, handed
        over with empty product id and time. */
    method Update(update: Content)
      modifies this
      ensures delivered == old(delivered) + [OD.Apply(OD.Update("", "", OD.Take(Changes(update), UpdateCapacity)))]
    {
      var changes := ConvertChanges(update);
      delivered := delivered + [OD.Apply(OD.Update("", "", changes))];
    }
  }
}
