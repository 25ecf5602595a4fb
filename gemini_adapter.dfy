/** The Gemini adapter (core/src/order_book/clients/gemini/gemini_adapter.rs):
    converts Gemini's level-2 messages into the common order-book types and
    feeds them to book 1 of a shared three-exchange spread table. What the
    book does with a snapshot or an update is not part of this model; it is
    passed in as a function. */
module GeminiAdapter {
  import OD = OrderData
  import MB = MultiBook

  /** Gemini's own message types (core/src/order_book/clients/gemini/data_types.rs). */
  datatype Side = Buy | Sell
  datatype PriceLevel = PriceLevel(level: nat, amount: real, sequence: int)
  datatype Change = Change(side: Side, priceLevel: PriceLevel)
  datatype Content = Content(changes: seq<Change>)

  const BookIdx: nat := 1
  const SnapshotCapacity: nat := 65536
  const UpdateCapacity: nat := 512
  /** The largest update the adapter accepts. */
  const MaxUpdate: nat := 16

  function CommonSide(side: Side): (r: OD.Side)
    ensures r == OD.Buy <==> side == Buy
    ensures r == OD.Sell <==> side == Sell
  {
    match side
    case Buy => OD.Buy
    case Sell => OD.Sell
  }

  /** The common level for a Gemini level: same level and amount, sequence 0. */
  function Level(p: PriceLevel): (q: OD.PriceLevel)
    ensures q.level == p.level && q.amount == p.amount && q.sequence == 0
  {
    OD.PriceLevel(p.level, p.amount, 0)
  }

  /** The converted levels of the changes on one side, in their order. */
  function SideLevels(cs: seq<Change>, side: Side): (ps: seq<OD.PriceLevel>)
    ensures |ps| <= |cs|
  {
    if |cs| == 0 then []
    else SideLevels(cs[..|cs| - 1], side) +
         (if cs[|cs| - 1].side == side then [Level(cs[|cs| - 1].priceLevel)] else [])
  }

  /** Splitting the changes splits each side's levels the same way: the
      partition keeps the relative order within a side. */
  lemma {:induction false} SideLevelsAppend(a: seq<Change>, b: seq<Change>, side: Side)
    ensures SideLevels(a + b, side) == SideLevels(a, side) + SideLevels(b, side)
    decreases |b|
  {
    if |b| > 0 {
      var b' := b[..|b| - 1];
      assert (a + b)[..|a + b| - 1] == a + b';
      SideLevelsAppend(a, b', side);
    } else {
      assert a + b == a;
    }
  }

  /** Every change lands on exactly one side. */
  lemma {:induction false} SideLevelsPartition(cs: seq<Change>)
    ensures |SideLevels(cs, Buy)| + |SideLevels(cs, Sell)| == |cs|
  {
    if |cs| > 0 {
      SideLevelsPartition(cs[..|cs| - 1]);
    }
  }

  /** Each level on a side comes, converted, from a change on that side. */
  lemma {:induction false} SideLevelsFrom(cs: seq<Change>, side: Side, k: nat)
    requires k < |SideLevels(cs, side)|
    ensures exists i :: 0 <= i < |cs| && cs[i].side == side && SideLevels(cs, side)[k] == Level(cs[i].priceLevel)
  {
    var init := cs[..|cs| - 1];
    if k < |SideLevels(init, side)| {
      SideLevelsFrom(init, side, k);
      var i :| 0 <= i < |init| && init[i].side == side && SideLevels(init, side)[k] == Level(init[i].priceLevel);
      assert cs[i] == init[i];
    } else {
      assert cs[|cs| - 1].side == side;
    }
  }

  /** The common changes for an update: one per Gemini change, in order. */
  function Converted(cs: seq<Change>): (r: seq<OD.Change>)
    ensures |r| == |cs|
    ensures forall i :: 0 <= i < |cs| ==> r[i] == OD.Change(CommonSide(cs[i].side), Level(cs[i].priceLevel))
  {
    seq(|cs|, i requires 0 <= i < |cs| => OD.Change(CommonSide(cs[i].side), Level(cs[i].priceLevel)))
  }

  /** The snapshot handed to the book: each side's levels, cut at capacity. */
  function InitialBook(snapshot: Content): OD.Snapshot {
    OD.Snapshot(OD.Take(SideLevels(snapshot.changes, Buy), SnapshotCapacity),
                OD.Take(SideLevels(snapshot.changes, Sell), SnapshotCapacity))
  }

  /** The loop of `init_order_book`: Buy levels go to the bids and Sell
      levels to the asks, each pushed into a vector of capacity 65536. */
  method Partition(changes: seq<Change>) returns (bids: seq<OD.PriceLevel>, asks: seq<OD.PriceLevel>)
    ensures bids == OD.Take(SideLevels(changes, Buy), SnapshotCapacity)
    ensures asks == OD.Take(SideLevels(changes, Sell), SnapshotCapacity)
  {
    bids, asks := [], [];
    for i := 0 to |changes|
      invariant bids == OD.Take(SideLevels(changes[..i], Buy), SnapshotCapacity)
      invariant asks == OD.Take(SideLevels(changes[..i], Sell), SnapshotCapacity)
    {
      var p := changes[i].priceLevel;
      assert changes[..i + 1][..i] == changes[..i];
      match changes[i].side {
        case Buy =>
          OD.PushTake(SideLevels(changes[..i], Buy), Level(p), SnapshotCapacity);
          bids := OD.Push(bids, OD.PriceLevel(p.level, p.amount, 0), SnapshotCapacity);
        case Sell =>
          OD.PushTake(SideLevels(changes[..i], Sell), Level(p), SnapshotCapacity);
          asks := OD.Push(asks, OD.PriceLevel(p.level, p.amount, 0), SnapshotCapacity);
      }
    }
    assert changes[..|changes|] == changes;
  }

  /** The loop of `update`: every change converted, pushed into a vector of
      capacity 512. */
  method ConvertChanges(changes: seq<Change>) returns (out: seq<OD.Change>)
    ensures out == OD.Take(Converted(changes), UpdateCapacity)
  {
    out := [];
    for i := 0 to |changes|
      invariant out == OD.Take(Converted(changes[..i]), UpdateCapacity)
    {
      var change := changes[i];
      var side := match change.side case Sell => OD.Sell case Buy => OD.Buy;
      assert Converted(changes[..i + 1]) == Converted(changes[..i]) + [OD.Change(side, Level(change.priceLevel))];
      OD.PushTake(Converted(changes[..i]), OD.Change(side, Level(change.priceLevel)), UpdateCapacity);
      out := OD.Push(out, OD.Change(side, OD.PriceLevel(change.priceLevel.level, change.priceLevel.amount, 0)), UpdateCapacity);
    }
    assert changes[..|changes|] == changes;
  }

  class GeminiAdapter {
    const multiBook: MB.MultiBook
    const bookIdx: nat

    /** The shared table is a `MultiBook<3, 6>`. */
    ghost predicate Valid()
      reads multiBook
    {
      multiBook.Valid() && multiBook.s == 3 && multiBook.t == 6 && bookIdx == BookIdx
    }

    /** `GeminiAdapter::new`: always book 1 of the shared table. */
    constructor (book: MB.MultiBook)
      ensures multiBook == book && bookIdx == 1
    {
      multiBook := book;
      bookIdx := BookIdx;
    }

    /** `init_order_book`: book 1 is initialised from the partitioned
        snapshot, then its spreads are updated once. */
    method InitOrderBook(snapshot: Content, initBook: (MB.Book, OD.Snapshot) -> MB.Book)
      requires Valid()
      modifies multiBook, multiBook.spreads, multiBook.lastSpreads
      ensures Valid()
      ensures multiBook.pair == old(multiBook.pair)
      ensures multiBook.books == old(multiBook.books)[bookIdx := initBook(old(multiBook.books[bookIdx]), InitialBook(snapshot))]
      ensures multiBook.State() == MB.AfterUpdate(old(multiBook.State()), multiBook.books, bookIdx)
    {
      var bids, asks := Partition(snapshot.changes);
      var initial := OD.Snapshot(bids, asks);
      multiBook.books := multiBook.books[bookIdx := initBook(multiBook.books[bookIdx], initial)];
      multiBook.UpdateSpread(bookIdx);
    }

    /** `update`: an update of more than 16 changes panics, touching nothing;
        otherwise book 1 receives every change, converted and in order, with
        empty product id and time, and its spreads are updated once. */
    method Update(update: Content, applyBook: (MB.Book, OD.Update) -> MB.Book) returns (accepted: bool)
      requires Valid()
      modifies multiBook, multiBook.spreads, multiBook.lastSpreads
      ensures Valid()
      ensures multiBook.pair == old(multiBook.pair)
      ensures accepted <==> |update.changes| <= MaxUpdate
      ensures !accepted ==> multiBook.books == old(multiBook.books) && multiBook.State() == old(multiBook.State())
      ensures accepted ==>
                multiBook.books == old(multiBook.books)[bookIdx := applyBook(old(multiBook.books[bookIdx]), OD.Update("", "", Converted(update.changes)))] &&
                multiBook.State() == MB.AfterUpdate(old(multiBook.State()), multiBook.books, bookIdx)
    {
      if |update.changes| > MaxUpdate {
        return false;
      }
      var changes := ConvertChanges(update.changes);
      OD.TakeAll(Converted(update.changes), UpdateCapacity);
      var common := OD.Update("", "", changes);
      multiBook.books := multiBook.books[bookIdx := applyBook(multiBook.books[bookIdx], common)];
      multiBook.UpdateSpread(bookIdx);
      return true;
    }
  }
}
