/** The earlier spread table (core/src/order_book/order_book.rs).

    Each book holds a single best bid and best ask with their volumes. The
    table has `T` slots; the spread of buying on book `a` and selling on book
    `b` lives in slot `a + S * b`. Changing one book's bid or ask refreshes,
    for every other book `i`, both slots of the pair (changed book, i). */
module OrderBook {
  import opened Float
  import opened Arith

  /** The four numbers of a book. */
  datatype Quote = Quote(bid: int, bidVol: nat, ask: int, askVol: nat)

  datatype Spread = Spread(raw: int, percentage: F64)

  /** `Spread::default()`. */
  const DefaultSpread := Spread(0, Finite(0.0))

  class OrderBook {
    var bid: int
    var bidVol: nat
    var ask: int
    var askVol: nat

    function Value(): Quote
      reads this
    {
      Quote(bid, bidVol, ask, askVol)
    }

    /** `OrderBook::default()`. */
    constructor ()
      ensures Value() == Quote(0, 0, 0, 0)
    {
      bid, bidVol, ask, askVol := 0, 0, 0, 0;
    }

    /** `change_bid`: the bid side is replaced, the ask side is kept. */
    method ChangeBid(newBid: int, newVol: nat)
      modifies this
      ensures Value() == old(Value()).(bid := newBid, bidVol := newVol)
    {
      bid := newBid;
      bidVol := newVol;
    }

    /** `change_ask`: the ask side is replaced, the bid side is kept. */
    method ChangeAsk(newAsk: int, newVol: nat)
      modifies this
      ensures Value() == old(Value()).(ask := newAsk, askVol := newVol)
    {
      ask := newAsk;
      askVol := newVol;
    }
  }

  // ------------------------------------------------------------ slots

  /** The slot of the pair (a, b): `a + S * b`. */
  function Slot(s: nat, a: nat, b: nat): nat {
    a + s * b
  }

  /** Both slots of the pair (a, b) exist in a table of `t` entries. */
  predicate InBounds(s: nat, t: nat, a: nat, b: nat) {
    Slot(s, a, b) < t && Slot(s, b, a) < t
  }

  /** Every pair of books fits in the table exactly when it has at least
      `S * S` slots. */
  lemma InBoundsIff(s: nat, t: nat)
    requires s > 0
    ensures (forall a, b :: 0 <= a < s && 0 <= b < s ==> InBounds(s, t, a, b)) <==> s * s <= t
  {
    if s * s <= t {
      forall a, b | 0 <= a < s && 0 <= b < s
        ensures InBounds(s, t, a, b)
      {
        SlotBelow(s, a, b);
        SlotBelow(s, b, a);
      }
    } else {
      assert Slot(s, s - 1, s - 1) == s * s - 1;
      assert !InBounds(s, t, s - 1, s - 1);
    }
  }

  lemma SlotBelow(s: nat, a: nat, b: nat)
    requires a < s && b < s
    ensures Slot(s, a, b) < s * s
  {
    MulLeft(b, s, s - 1);
    assert s * b <= s * (s - 1);
  }

  /** Distinct pairs have distinct slots. */
  lemma SlotInjective(s: nat, a: nat, b: nat, c: nat, d: nat)
    requires a < s && c < s && Slot(s, a, b) == Slot(s, c, d)
    ensures a == c && b == d
  {
    DigitsUnique(s, a, b, c, d);
  }

  /** The two slots of a pair of different books are different. */
  lemma SlotsDistinct(s: nat, a: nat, b: nat)
    requires a < s && b < s && a != b
    ensures Slot(s, a, b) != Slot(s, b, a)
  {
    if Slot(s, a, b) == Slot(s, b, a) {
      SlotInjective(s, a, b, b, a);
    }
  }

  // ------------------------------------------------------------ spreads

  /** The spread of buying at `ask` and selling at `bid`, relative to `ask`
      as an `f64` quotient. */
  function SpreadOf(bid: int, ask: int): (sp: Spread)
    ensures sp.raw == bid - ask && sp.percentage == Div(bid - ask, ask)
  {
    Spread(bid - ask, Div(bid - ask, ask))
  }

  /** The table after `update_spread(a, b)`: slot (a, b) holds the spread of
      buying on `a` and selling on `b`, slot (b, a) the reverse, and every
      other slot is unchanged. */
  function Write(sp: seq<Spread>, qs: seq<Quote>, a: nat, b: nat): (r: seq<Spread>)
    requires a < |qs| && b < |qs| && InBounds(|qs|, |sp|, a, b)
    ensures |r| == |sp|
    ensures r[Slot(|qs|, a, b)] == SpreadOf(qs[b].bid, qs[a].ask)
    ensures r[Slot(|qs|, b, a)] == SpreadOf(qs[a].bid, qs[b].ask)
  {
    assert a != b ==> Slot(|qs|, a, b) != Slot(|qs|, b, a) by {
      if a != b { SlotsDistinct(|qs|, a, b); }
    }
    sp[Slot(|qs|, a, b) := SpreadOf(qs[b].bid, qs[a].ask)][Slot(|qs|, b, a) := SpreadOf(qs[a].bid, qs[b].ask)]
  }

  /** Every slot other than the two of the pair keeps its value. */
  lemma WriteOther(sp: seq<Spread>, qs: seq<Quote>, a: nat, b: nat, j: nat)
    requires a < |qs| && b < |qs| && InBounds(|qs|, |sp|, a, b)
    requires j < |sp| && j != Slot(|qs|, a, b) && j != Slot(|qs|, b, a)
    ensures Write(sp, qs, a, b)[j] == sp[j]
  {
  }

  /** Every pair of book `k` with another book fits in the table. */
  predicate Fits(s: nat, t: nat, k: nat) {
    forall i :: 0 <= i < s && i != k ==> InBounds(s, t, k, i)
  }

  /** The table after `update_spread(k, i)` for each `i < n` other than `k`,
      in increasing order of `i`. */
  function Refresh(sp: seq<Spread>, qs: seq<Quote>, k: nat, n: nat): (r: seq<Spread>)
    requires k < |qs| && n <= |qs| && Fits(|qs|, |sp|, k)
    ensures |r| == |sp|
  {
    if n == 0 then sp
    else if n - 1 == k then Refresh(sp, qs, k, n - 1)
    else Write(Refresh(sp, qs, k, n - 1), qs, k, n - 1)
  }

  /** One more book visited: book `k` itself changes nothing, any other
      book `i` rewrites the two slots of the pair (k, i). */
  lemma RefreshNext(sp: seq<Spread>, qs: seq<Quote>, k: nat, i: nat)
    requires k < |qs| && i < |qs| && Fits(|qs|, |sp|, k)
    ensures i == k ==> Refresh(sp, qs, k, i + 1) == Refresh(sp, qs, k, i)
    ensures i != k ==> InBounds(|qs|, |sp|, k, i) &&
                       Refresh(sp, qs, k, i + 1) == Write(Refresh(sp, qs, k, i), qs, k, i)
  {
  }

  /** What slot `j` holds after the refresh: the forward spread when it is
      the slot (k, i) of a refreshed `i`, the reverse spread when it is the
      slot (i, k), and its old value otherwise. */
  function Refreshed(sp: seq<Spread>, qs: seq<Quote>, k: nat, n: nat, j: nat): Spread
    requires k < |qs| && n <= |qs| && j < |sp|
  {
    var s := |qs|;
    if j % s == k && j / s < n && j / s != k then SpreadOf(qs[j / s].bid, qs[k].ask)
    else if j / s == k && j % s < n && j % s != k then SpreadOf(qs[k].bid, qs[j % s].ask)
    else sp[j]
  }

  lemma {:induction false} RefreshAt(sp: seq<Spread>, qs: seq<Quote>, k: nat, n: nat, j: nat)
    requires k < |qs| && n <= |qs| && Fits(|qs|, |sp|, k) && j < |sp|
    ensures Refresh(sp, qs, k, n)[j] == Refreshed(sp, qs, k, n, j)
  {
    if n == 0 {
      RefreshedNone(sp, qs, k, j);
    } else {
      var i := n - 1;
      RefreshNext(sp, qs, k, i);
      RefreshAt(sp, qs, k, i, j);
      if i != k {
        RefreshedStep(sp, qs, k, i, Refresh(sp, qs, k, i), j);
      } else {
        RefreshedSkip(sp, qs, k, j);
      }
    }
  }

  /** Before any book is visited every entry keeps its value. */
  lemma RefreshedNone(sp: seq<Spread>, qs: seq<Quote>, k: nat, j: nat)
    requires k < |qs| && j < |sp|
    ensures Refreshed(sp, qs, k, 0, j) == sp[j]
  {
    Digits(|qs|, j);
  }

  /** Visiting book `k` itself changes nothing. */
  lemma RefreshedSkip(sp: seq<Spread>, qs: seq<Quote>, k: nat, j: nat)
    requires k < |qs| && k + 1 <= |qs| && j < |sp|
    ensures Refreshed(sp, qs, k, k + 1, j) == Refreshed(sp, qs, k, k, j)
  {
  }

  /** Refreshing the pair (k, i) takes entry `j` from its value before `i`
      to its value after `i`. */
  lemma RefreshedStep(sp: seq<Spread>, qs: seq<Quote>, k: nat, i: nat, prev: seq<Spread>, j: nat)
    requires k < |qs| && i < |qs| && i != k && j < |sp| && |prev| == |sp| && InBounds(|qs|, |sp|, k, i)
    requires prev[j] == Refreshed(sp, qs, k, i, j)
    ensures Write(prev, qs, k, i)[j] == Refreshed(sp, qs, k, i + 1, j)
  {
    SlotIff(|qs|, j, k, i);
    SlotIff(|qs|, j, i, k);
    if j != Slot(|qs|, k, i) && j != Slot(|qs|, i, k) {
      WriteOther(prev, qs, k, i, j);
    }
  }

  /** An index is the slot of (a, b) exactly when a and b are its remainder
      and quotient. */
  lemma SlotIff(s: nat, j: nat, a: nat, b: nat)
    requires a < s
    ensures j == Slot(s, a, b) <==> j % s == a && j / s == b
  {
    SlotDigits(s, a, b);
    Digits(s, j);
  }

  /** Every index is the slot of its remainder and quotient. */
  lemma Digits(s: nat, j: nat)
    requires s > 0
    ensures 0 <= j / s && j % s < s && j == Slot(s, j % s, j / s)
  {
  }

  lemma SlotDigits(s: nat, a: nat, b: nat)
    requires a < s
    ensures Slot(s, a, b) % s == a && Slot(s, a, b) / s == b
  {
    DivModUnique(Slot(s, a, b), s, b, a);
  }

  /** After the refresh, slot (k, i) of every refreshed `i` holds the spread
      of buying on `k` and selling on `i`. */
  lemma RefreshForward(sp: seq<Spread>, qs: seq<Quote>, k: nat, n: nat, i: nat)
    requires k < |qs| && n <= |qs| && Fits(|qs|, |sp|, k) && i < n && i != k
    ensures Slot(|qs|, k, i) < |sp|
    ensures Refresh(sp, qs, k, n)[Slot(|qs|, k, i)] == SpreadOf(qs[i].bid, qs[k].ask)
  {
    assert InBounds(|qs|, |sp|, k, i);
    RefreshAt(sp, qs, k, n, Slot(|qs|, k, i));
    SlotDigits(|qs|, k, i);
  }

  /** After the refresh, slot (i, k) of every refreshed `i` holds the spread
      of buying on `i` and selling on `k`. */
  lemma RefreshReverse(sp: seq<Spread>, qs: seq<Quote>, k: nat, n: nat, i: nat)
    requires k < |qs| && n <= |qs| && Fits(|qs|, |sp|, k) && i < n && i != k
    ensures Slot(|qs|, i, k) < |sp|
    ensures Refresh(sp, qs, k, n)[Slot(|qs|, i, k)] == SpreadOf(qs[k].bid, qs[i].ask)
  {
    assert InBounds(|qs|, |sp|, k, i);
    RefreshAt(sp, qs, k, n, Slot(|qs|, i, k));
    SlotDigits(|qs|, i, k);
  }

  /** A slot that is neither (k, i) nor (i, k) for a refreshed `i` keeps its
      value. */
  lemma RefreshOther(sp: seq<Spread>, qs: seq<Quote>, k: nat, n: nat, j: nat)
    requires k < |qs| && n <= |qs| && Fits(|qs|, |sp|, k) && j < |sp|
    requires forall i :: 0 <= i < n && i != k ==> j != Slot(|qs|, k, i) && j != Slot(|qs|, i, k)
    ensures Refresh(sp, qs, k, n)[j] == sp[j]
  {
    var s := |qs|;
    RefreshAt(sp, qs, k, n, j);
    Digits(s, j);
    var lo, hi := j % s, j / s;
    if hi < n && hi != k {
      assert j != Slot(s, k, hi);
    }
    if lo < n && lo != k {
      assert j != Slot(s, lo, k);
    }
  }

  // ------------------------------------------------------------ the table

  class MultiBook {
    const s: nat
    const t: nat
    const books: array<OrderBook>
    const spreads: array<Spread>

    /** The books are `s` different objects (in the source they are values
        inside one array) and the table has `t` slots. */
    ghost predicate Valid()
      reads books
    {
      Sized() && forall i, j :: 0 <= i < j < books.Length ==> books[i] != books[j]
    }

    /** The arrays have their declared sizes. */
    ghost predicate Sized() {
      books.Length == s && spreads.Length == t
    }

    function Quotes(): (qs: seq<Quote>)
      reads books, books[..]
      ensures |qs| == books.Length
      ensures forall i :: 0 <= i < books.Length ==> qs[i] == books[i].Value()
    {
      seq(books.Length, i reads books, books[..] requires 0 <= i < books.Length => books[i].Value())
    }

    /** The struct literal `MultiBook { books, spreads }`. */
    constructor (books: array<OrderBook>, spreads: array<Spread>)
      requires forall i, j :: 0 <= i < j < books.Length ==> books[i] != books[j]
      ensures Valid() && s == books.Length && t == spreads.Length
      ensures this.books == books && this.spreads == spreads
    {
      this.s := books.Length;
      this.t := spreads.Length;
      this.books := books;
      this.spreads := spreads;
    }

    /** `update_spread(a, b)`: rewrites the two slots of the pair, reading the
        books and changing nothing else. */
    method UpdateSpread(a: nat, b: nat)
      requires Sized() && a < s && b < s && InBounds(s, t, a, b)
      modifies spreads
      ensures Quotes() == old(Quotes())
      ensures spreads[..] == Write(old(spreads[..]), Quotes(), a, b)
    {
      var raw1 := books[b].bid - books[a].ask;
      var raw2 := books[a].bid - books[b].ask;
      var percentage1 := Div(raw1, books[a].ask);
      var percentage2 := Div(raw2, books[b].ask);
      spreads[a + s * b] := Spread(raw1, percentage1);
      spreads[b + s * a] := Spread(raw2, percentage2);
    }

    /** `change_bid(k, ..)`: replaces book `k`'s bid, then refreshes its pair
        with every other book. */
    method ChangeBid(k: nat, newBid: int, newVol: nat)
      requires Valid() && k < s && Fits(s, t, k)
      modifies books[k], spreads
      ensures Quotes() == old(Quotes())[k := old(Quotes()[k]).(bid := newBid, bidVol := newVol)]
      ensures spreads[..] == Refresh(old(spreads[..]), Quotes(), k, s)
    {
      books[k].ChangeBid(newBid, newVol);
      RefreshPairs(k);
    }

    /** `change_ask(k, ..)`: replaces book `k`'s ask, then refreshes its pair
        with every other book. */
    method ChangeAsk(k: nat, newAsk: int, newVol: nat)
      requires Valid() && k < s && Fits(s, t, k)
      modifies books[k], spreads
      ensures Quotes() == old(Quotes())[k := old(Quotes()[k]).(ask := newAsk, askVol := newVol)]
      ensures spreads[..] == Refresh(old(spreads[..]), Quotes(), k, s)
    {
      books[k].ChangeAsk(newAsk, newVol);
      RefreshPairs(k);
    }

    /** The loop both setters share: `update_spread(k, i)` for every `i`
        other than `k`. */
    method RefreshPairs(k: nat)
      requires Sized() && k < s && Fits(s, t, k)
      modifies spreads
      ensures spreads[..] == Refresh(old(spreads[..]), Quotes(), k, s)
    {
      ghost var qs := Quotes();
      ghost var sp0 := spreads[..];
      assert Fits(|qs|, |sp0|, k);
      var i := 0;
      while i < s
        invariant 0 <= i <= s
        invariant Quotes() == qs
        invariant spreads[..] == Refresh(sp0, qs, k, i)
      {
        RefreshNext(sp0, qs, k, i);
        if i != k {
          UpdateSpread(k, i);
        }
        i := i + 1;
      }
    }
  }
}
