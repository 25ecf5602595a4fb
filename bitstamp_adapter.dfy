/** The Bitstamp adapter (core/src/order_book/clients/bitstamp/bitstamp_adapter.rs):
    converts Bitstamp's order-book messages into the common order-book types
    and feeds them to book 2 of a shared three-exchange spread table. What the
    book does with a snapshot or an update is not part of this model; it is
    passed in as a function. */
module BitstampAdapter {
  import OD = OrderData
  import MB = MultiBook

  /** Bitstamp's own message types (core/src/order_book/clients/bitstamp/data_types.rs). */
  datatype PriceLevel = PriceLevel(level: nat, amount: real)
  datatype Update = Update(bids: seq<PriceLevel>, asks: seq<PriceLevel>)

  const BookIdx: nat := 2
  const SnapshotCapacity: nat := 65536
  const UpdateCapacity: nat := 512
  /** Each side of an accepted update has fewer levels than this. */
  const SideLimit: nat := 128

  /** The common level for a Bitstamp level: same level and amount, sequence 0. */
  function Level(p: PriceLevel): (q: OD.PriceLevel)
    ensures q.level == p.level && q.amount == p.amount && q.sequence == 0
  {
    OD.PriceLevel(p.level, p.amount, 0)
  }

  function Levels(ps: seq<PriceLevel>): (qs: seq<OD.PriceLevel>)
    ensures |qs| == |ps|
    ensures forall i :: 0 <= i < |ps| ==> qs[i] == Level(ps[i])
  {
    seq(|ps|, i requires 0 <= i < |ps| => Level(ps[i]))
  }

  /** The levels of one side as changes on that side. */
  function Tagged(side: OD.Side, ps: seq<PriceLevel>): (cs: seq<OD.Change>)
    ensures |cs| == |ps|
    ensures forall i :: 0 <= i < |ps| ==> cs[i] == OD.Change(side, Level(ps[i]))
  {
    seq(|ps|, i requires 0 <= i < |ps| => OD.Change(side, Level(ps[i])))
  }

  /** The changes of an update: all bids as Buy, in order, then all asks as
      Sell, in order. */
  function Changes(u: Update): (cs: seq<OD.Change>)
    ensures |cs| == |u.bids| + |u.asks|
    ensures forall i :: 0 <= i < |u.bids| ==> cs[i] == OD.Change(OD.Buy, Level(u.bids[i]))
    ensures forall i :: 0 <= i < |u.asks| ==> cs[|u.bids| + i] == OD.Change(OD.Sell, Level(u.asks[i]))
  {
    Tagged(OD.Buy, u.bids) + Tagged(OD.Sell, u.asks)
  }

  /** When the size guard passes, the change vector has room for every
      change: nothing is dropped. */
  lemma GuardedFits(u: Update)
    requires |u.bids| < SideLimit && |u.asks| < SideLimit
    ensures OD.Take(Changes(u), UpdateCapacity) == Changes(u)
  {
    OD.TakeAll(Changes(u), UpdateCapacity);
  }

  /** One loop of `init_order_book`: the levels copied into a vector of
      capacity 65536. */
  method CopyLevels(ps: seq<PriceLevel>) returns (out: seq<OD.PriceLevel>)
    ensures out == OD.Take(Levels(ps), SnapshotCapacity)
  {
    out := [];
    for i := 0 to |ps|
      invariant out == OD.Take(Levels(ps[..i]), SnapshotCapacity)
    {
      assert Levels(ps[..i + 1]) == Levels(ps[..i]) + [Level(ps[i])];
      OD.PushTake(Levels(ps[..i]), Level(ps[i]), SnapshotCapacity);
      out := OD.Push(out, OD.PriceLevel(ps[i].level, ps[i].amount, 0), SnapshotCapacity);
    }
    assert ps[..|ps|] == ps;
  }

  /** The two loops of `update`: bids pushed as Buy, then asks as Sell, into
      one vector of capacity 512. */
  method ConvertChanges(u: Update) returns (out: seq<OD.Change>)
    ensures out == OD.Take(Changes(u), UpdateCapacity)
  {
    out := [];
    for i := 0 to |u.bids|
      invariant out == OD.Take(Tagged(OD.Buy, u.bids[..i]), UpdateCapacity)
    {
      var c := OD.Change(OD.Buy, Level(u.bids[i]));
      assert Tagged(OD.Buy, u.bids[..i + 1]) == Tagged(OD.Buy, u.bids[..i]) + [c];
      OD.PushTake(Tagged(OD.Buy, u.bids[..i]), c, UpdateCapacity);
      out := OD.Push(out, OD.Change(OD.Buy, OD.PriceLevel(u.bids[i].level, u.bids[i].amount, 0)), UpdateCapacity);
    }
    ghost var bidChanges := Tagged(OD.Buy, u.bids);
    assert u.bids[..|u.bids|] == u.bids;
    for i := 0 to |u.asks|
      invariant out == OD.Take(bidChanges + Tagged(OD.Sell, u.asks[..i]), UpdateCapacity)
    {
      var c := OD.Change(OD.Sell, Level(u.asks[i]));
      assert bidChanges + Tagged(OD.Sell, u.asks[..i + 1]) == (bidChanges + Tagged(OD.Sell, u.asks[..i])) + [c];
      OD.PushTake(bidChanges + Tagged(OD.Sell, u.asks[..i]), c, UpdateCapacity);
      out := OD.Push(out, OD.Change(OD.Sell, OD.PriceLevel(u.asks[i].level, u.asks[i].amount, 0)), UpdateCapacity);
    }
    assert u.asks[..|u.asks|] == u.asks;
  }

  /** The snapshot handed to the book: bids and asks copied, cut at capacity. */
  function InitialBook(snapshot: Update): OD.Snapshot {
    OD.Snapshot(OD.Take(Levels(snapshot.bids), SnapshotCapacity), OD.Take(Levels(snapshot.asks), SnapshotCapacity))
  }

  class BitstampAdapter {
    const multiBook: MB.MultiBook
    const bookIdx: nat

    /** The shared table is a `MultiBook<3, 6>`. */
    ghost predicate Valid()
      reads multiBook
    {
      multiBook.Valid() && multiBook.s == 3 && multiBook.t == 6 && bookIdx == BookIdx
    }

    /** `BitstampAdapter::new`: always book 2 of the shared table. */
    constructor (book: MB.MultiBook)
      ensures multiBook == book && bookIdx == 2
    {
      multiBook := book;
      bookIdx := BookIdx;
    }

    /** `init_order_book`: book 2 is initialised from the copied snapshot,
        then its spreads are updated once. */
    method InitOrderBook(snapshot: Update, initBook: (MB.Book, OD.Snapshot) -> MB.Book)
      requires Valid()
      modifies multiBook, multiBook.spreads, multiBook.lastSpreads
      ensures Valid()
      ensures multiBook.pair == old(multiBook.pair)
      ensures multiBook.books == old(multiBook.books)[bookIdx := initBook(old(multiBook.books[bookIdx]), InitialBook(snapshot))]
      ensures multiBook.State() == MB.AfterUpdate(old(multiBook.State()), multiBook.books, bookIdx)
    {
      var bids := CopyLevels(snapshot.bids);
      var asks := CopyLevels(snapshot.asks);
      var initial := OD.Snapshot(bids, asks);
      multiBook.books := multiBook.books[bookIdx := initBook(multiBook.books[bookIdx], initial)];
      multiBook.UpdateSpread(bookIdx);
    }

    /** `update`: a side of 128 levels or more panics, touching nothing;
        otherwise book 2 receives every level as a change, bids first, with
        empty product id and time, and its spreads are updated once. */
    method Update(update: Update, applyBook: (MB.Book, OD.Update) -> MB.Book) returns (accepted: bool)
      requires Valid()
      modifies multiBook, multiBook.spreads, multiBook.lastSpreads
      ensures Valid()
      ensures multiBook.pair == old(multiBook.pair)
      ensures accepted <==> |update.asks| < SideLimit && |update.bids| < SideLimit
      ensures !accepted ==> multiBook.books == old(multiBook.books) && multiBook.State() == old(multiBook.State())
      ensures accepted ==>
                multiBook.books == old(multiBook.books)[bookIdx := applyBook(old(multiBook.books[bookIdx]), OD.Update("", "", Changes(update)))] &&
                multiBook.State() == MB.AfterUpdate(old(multiBook.State()), multiBook.books, bookIdx)
    {
      if |update.asks| >= SideLimit || |update.bids| >= SideLimit {
        return false;
      }
      var changes := ConvertChanges(update);
      GuardedFits(update);
      var common := OD.Update("", "", changes);
      multiBook.books := multiBook.books[bookIdx := applyBook(multiBook.books[bookIdx], common)];
      multiBook.UpdateSpread(bookIdx);
      return true;
    }
  }
}
