/** The cross-exchange spread table (core/src/order_book/multi_book.rs).

    `S` books, one per exchange, all for the same currency pair. For every
    ordered pair (a, b) of distinct books the table holds the spread of buying
    at a's best ask and selling at b's best bid, at index
    `a * (S - 1) + (b < a ? b : b - 1)`. After a book changes, `UpdateSpread`
    recomputes the entries that involve it, then scans the table, counting
    spreads above five thresholds, tracking the best percentage seen, and
    stopping at the first new arbitrage opportunity. */
module MultiBook {
  import opened Wrappers
  import opened Float
  import opened OrderData
  import opened Arith

  /** A book's best price on one side: the level and that level's sequence. */
  datatype Top = Top(level: nat, sequence: int)

  /** An exchange's order book as the spread table sees it: its name, its
      currency pair and its best bid and best ask, if any. The heaps and
      lookups behind these are not part of this model. */
  datatype Book = Book(name: string, pair: string, bestBid: Option<Top>, bestAsk: Option<Top>)

  datatype Spread = Spread(raw: int, percentage: F64, seqs: (int, int))

  /** `Spread::default()`. */
  const DefaultSpread := Spread(0, Finite(0.0), (0, 0))

  /** The running statistics of the table. */
  datatype Stats = Stats(arbCount: nat, o25: nat, o20: nat, o15: nat, o10: nat, o05: nat, max: F64)

  /** Everything `UpdateSpread` may change. */
  datatype Tables = Tables(spreads: seq<Spread>, last: seq<Spread>, stats: Stats)

  // ------------------------------------------------------------ best prices

  /** `get_best`: the best bid (Buy) or best ask (Sell) of a book, as its
      level and sequence number. */
  function GetBest(side: Side, book: Book): (r: Option<(nat, int)>)
    ensures var top := if side == Buy then book.bestBid else book.bestAsk;
            (r.None? <==> top.None?) && (r.Some? ==> r.value == (top.value.level, top.value.sequence))
  {
    match side
    case Buy => (match book.bestBid case Some(b) => Some((b.level, b.sequence)) case None => None)
    case Sell => (match book.bestAsk case Some(a) => Some((a.level, a.sequence)) case None => None)
  }

  /** `spread_from_levels`: the profit `bid - ask` of buying at `ask` and
      selling at `bid`, and that profit relative to the ask. */
  function SpreadFromLevels(ask: int, bid: int, seqs: (int, int)): (sp: Spread)
    ensures sp.raw == bid - ask && sp.seqs == seqs
    ensures ask > 0 ==> sp.percentage == Finite((bid - ask) as real / ask as real)
    ensures ask == 0 ==> sp.percentage == (if bid > 0 then PosInf else if bid < 0 then NegInf else NaN)
  {
    Spread(bid - ask, Div(bid - ask, ask), seqs)
  }

  /** With a positive ask, the spread's percentage is at least a threshold
      exactly when the profit is at least that fraction of the ask. */
  lemma SpreadThreshold(ask: int, bid: int, seqs: (int, int), th: real)
    requires ask > 0
    ensures Ge(SpreadFromLevels(ask, bid, seqs).percentage, Finite(th)) <==> (bid - ask) as real >= th * ask as real
  {
    var q := (bid - ask) as real / ask as real;
    assert q * ask as real == (bid - ask) as real;
    if q >= th {
      assert q * ask as real >= th * ask as real;
    } else {
      assert q * ask as real < th * ask as real;
    }
  }

  // ------------------------------------------------------------ pair index

  /** The table index of the ordered pair (a, b), computed as the source does:
      `a * S + b`, minus `a` when `b < a` and minus `a + 1` otherwise. */
  function PairIndex(s: nat, a: nat, b: nat): (j: nat)
    requires a < s && b < s && a != b
    ensures j == a * (s - 1) + (if b < a then b else b - 1)
    ensures j < s * (s - 1)
  {
    PairIndexBounds(s, a, b);
    a * s + b - (if b < a then a else a + 1)
  }

  lemma PairIndexBounds(s: nat, a: nat, b: nat)
    requires a < s && b < s && a != b
    ensures a * s + b - (if b < a then a else a + 1) == a * (s - 1) + (if b < a then b else b - 1)
    ensures a * (s - 1) + (if b < a then b else b - 1) < s * (s - 1)
  {
    assert a * s == a * (s - 1) + a;
    MulLeft(a, s - 1, s - 1);
    assert s * (s - 1) == (s - 1) * (s - 1) + (s - 1);
  }

  /** The ordered pair stored at table index `j`: the inverse of PairIndex. */
  function PairOf(s: nat, j: nat): (p: (nat, nat))
    requires j < s * (s - 1)
    ensures p.0 < s && p.1 < s && p.0 != p.1
    ensures PairIndex(s, p.0, p.1) == j
  {
    PairOfBounds(s, j);
    var a := j / (s - 1);
    var r := j % (s - 1);
    (a, if r < a then r else r + 1)
  }

  lemma PairOfBounds(s: nat, j: nat)
    requires j < s * (s - 1)
    ensures s >= 2 && j / (s - 1) < s && 0 <= j % (s - 1) < s - 1
    ensures j == (j / (s - 1)) * (s - 1) + j % (s - 1)
  {
    DivBelow(j, s - 1, s);
  }

  lemma PairOfIndex(s: nat, a: nat, b: nat)
    requires a < s && b < s && a != b
    ensures PairOf(s, PairIndex(s, a, b)) == (a, b)
  {
    var r := if b < a then b else b - 1;
    DivModUnique(PairIndex(s, a, b), s - 1, a, r);
  }

  /** Distinct ordered pairs occupy distinct table entries. */
  lemma PairIndexInjective(s: nat, a: nat, b: nat, c: nat, d: nat)
    requires a < s && b < s && a != b && c < s && d < s && c != d
    requires PairIndex(s, a, b) == PairIndex(s, c, d)
    ensures a == c && b == d
  {
    PairOfIndex(s, a, b);
    PairOfIndex(s, c, d);
  }

  // ------------------------------------------------------------ refreshing

  /** Whether buying on `a` and selling on `b` has both prices. */
  predicate Quoted(books: seq<Book>, a: nat, b: nat)
    requires a < |books| && b < |books|
  {
    books[a].bestAsk.Some? && books[b].bestBid.Some?
  }

  /** The spread of buying at a's best ask and selling at b's best bid. */
  function PairSpread(books: seq<Book>, a: nat, b: nat): (sp: Spread)
    requires a < |books| && b < |books| && Quoted(books, a, b)
    ensures sp.raw == books[b].bestBid.value.level - books[a].bestAsk.value.level
    ensures sp.seqs == (books[a].bestAsk.value.sequence, books[b].bestBid.value.sequence)
  {
    var ask := books[a].bestAsk.value;
    var bid := books[b].bestBid.value;
    SpreadFromLevels(ask.level, bid.level, (ask.sequence, bid.sequence))
  }

  /** Whether the pair (a, b) has been visited once the books below `n` have
      been paired with book `k`. */
  predicate Touched(k: nat, n: nat, p: (nat, nat)) {
    (p.0 == k && p.1 < n) || (p.1 == k && p.0 < n)
  }

  /** Entry `j` of the table once pair (a, b) for every visited other book is
      recomputed where both prices exist. */
  function RefreshedAt(sp: seq<Spread>, books: seq<Book>, k: nat, n: nat, j: nat): Spread
    requires |books| * (|books| - 1) <= |sp| && j < |sp|
  {
    var s := |books|;
    if j < s * (s - 1) && Touched(k, n, PairOf(s, j)) && Quoted(books, PairOf(s, j).0, PairOf(s, j).1)
    then PairSpread(books, PairOf(s, j).0, PairOf(s, j).1)
    else sp[j]
  }

  /** The table after pairing book `k` with the books below `n`. */
  function Refresh(sp: seq<Spread>, books: seq<Book>, k: nat, n: nat): (r: seq<Spread>)
    requires |books| * (|books| - 1) <= |sp|
    ensures |r| == |sp|
    ensures forall j :: 0 <= j < |sp| ==> r[j] == RefreshedAt(sp, books, k, n, j)
  {
    seq(|sp|, j requires 0 <= j < |sp| => RefreshedAt(sp, books, k, n, j))
  }

  /** One write of the source's inner loop: entry (a, b) gets the pair's
      spread when both prices exist. */
  function Put(sp: seq<Spread>, books: seq<Book>, a: nat, b: nat): (r: seq<Spread>)
    requires a < |books| && b < |books| && a != b && |books| * (|books| - 1) <= |sp|
    ensures |r| == |sp|
  {
    if Quoted(books, a, b) then sp[PairIndex(|books|, a, b) := PairSpread(books, a, b)] else sp
  }

  /** Visiting book `i` writes the forward entry (k, i), then the reverse
      entry (i, k); visiting `k` itself writes nothing. */
  lemma RefreshStep(sp: seq<Spread>, books: seq<Book>, k: nat, i: nat)
    requires k < |books| && i < |books| && |books| * (|books| - 1) <= |sp|
    ensures i == k ==> Refresh(sp, books, k, i + 1) == Refresh(sp, books, k, i)
    ensures i != k ==> Refresh(sp, books, k, i + 1) == Put(Put(Refresh(sp, books, k, i), books, k, i), books, i, k)
  {
    var s := |books|;
    var before := Refresh(sp, books, k, i);
    var after := Refresh(sp, books, k, i + 1);
    if i == k {
      forall j | 0 <= j < |sp| ensures after[j] == before[j] {
        if j < s * (s - 1) {
          var p := PairOf(s, j);
          assert Touched(k, i + 1, p) == Touched(k, i, p);
        }
      }
    } else {
      var fwd := PairIndex(s, k, i);
      var rev := PairIndex(s, i, k);
      PairOfIndex(s, k, i);
      PairOfIndex(s, i, k);
      var put := Put(Put(before, books, k, i), books, i, k);
      forall j | 0 <= j < |sp| ensures after[j] == put[j] {
        if j == fwd {
          assert j != rev;
        } else if j == rev {
        } else if j < s * (s - 1) {
          var p := PairOf(s, j);
          if p == (k, i) || p == (i, k) {
            assert false;
          }
          assert Touched(k, i + 1, p) == Touched(k, i, p);
        }
      }
    }
  }

  /** The effect of refreshing book `k` on the entry of any pair (a, b): the
      pair's spread if it involves `k` and both prices exist, the old entry
      otherwise. */
  lemma RefreshPair(sp: seq<Spread>, books: seq<Book>, k: nat, a: nat, b: nat)
    requires k < |books| && |books| * (|books| - 1) <= |sp|
    requires a < |books| && b < |books| && a != b
    ensures Refresh(sp, books, k, |books|)[PairIndex(|books|, a, b)] ==
            if (a == k || b == k) && Quoted(books, a, b) then PairSpread(books, a, b)
            else sp[PairIndex(|books|, a, b)]
  {
    PairOfIndex(|books|, a, b);
  }

  // ------------------------------------------------------------ scanning

  /** A new arbitrage opportunity: at least 0.2%, and either nothing recorded
      yet for that entry or different sequence numbers from the record. */
  predicate IsArb(sp: Spread, last: Spread) {
    Ge(sp.percentage, Finite(0.002)) &&
    (last.seqs.0 == 0 || sp.seqs.0 != last.seqs.0 || sp.seqs.1 != last.seqs.1)
  }

  /** The first index at or after `i` holding a new opportunity, or `|sp|`. */
  function FirstArb(sp: seq<Spread>, last: seq<Spread>, i: nat): (f: nat)
    requires |last| == |sp| && i <= |sp|
    ensures i <= f <= |sp|
    ensures forall j :: i <= j < f ==> !IsArb(sp[j], last[j])
    ensures f < |sp| ==> IsArb(sp[f], last[f])
    decreases |sp| - i
  {
    if i == |sp| then i
    else if IsArb(sp[i], last[i]) then i
    else FirstArb(sp, last, i + 1)
  }

  /** How many of the spreads have a percentage of at least `th`. */
  function CountAtLeast(ps: seq<Spread>, th: real): (n: nat)
    ensures n <= |ps|
  {
    if |ps| == 0 then 0
    else CountAtLeast(ps[..|ps| - 1], th) + (if Ge(ps[|ps| - 1].percentage, Finite(th)) then 1 else 0)
  }

  /** The best percentage after comparing `m` with each spread in turn,
      taking a spread's percentage when it is `>=` the best so far. */
  function RunningMax(m: F64, ps: seq<Spread>): F64 {
    if |ps| == 0 then m
    else
      var prev := RunningMax(m, ps[..|ps| - 1]);
      if Ge(ps[|ps| - 1].percentage, prev) then ps[|ps| - 1].percentage else prev
  }

  /** The statistics after reading one more percentage. */
  function Bump(st: Stats, p: F64): Stats {
    st.(o25 := st.o25 + (if Ge(p, Finite(0.0025)) then 1 else 0),
        o20 := st.o20 + (if Ge(p, Finite(0.002)) then 1 else 0),
        o15 := st.o15 + (if Ge(p, Finite(0.0015)) then 1 else 0),
        o10 := st.o10 + (if Ge(p, Finite(0.001)) then 1 else 0),
        o05 := st.o05 + (if Ge(p, Finite(0.0005)) then 1 else 0),
        max := if Ge(p, st.max) then p else st.max)
  }

  /** The statistics after scanning `ps`, one entry after the other. */
  function Tally(st: Stats, ps: seq<Spread>): Stats {
    if |ps| == 0 then st else Bump(Tally(st, ps[..|ps| - 1]), ps[|ps| - 1].percentage)
  }

  lemma TallyStep(st: Stats, ps: seq<Spread>, j: nat)
    requires j < |ps|
    ensures Tally(st, ps[..j + 1]) == Bump(Tally(st, ps[..j]), ps[j].percentage)
  {
    assert ps[..j + 1][..j] == ps[..j];
  }

  /** Scanning adds to each counter the number of spreads at or above its
      threshold, leaves the opportunity count alone, and ends with the
      running maximum. */
  lemma {:induction false} TallyCounts(st: Stats, ps: seq<Spread>)
    ensures var r := Tally(st, ps);
            r.arbCount == st.arbCount &&
            r.o25 == st.o25 + CountAtLeast(ps, 0.0025) &&
            r.o20 == st.o20 + CountAtLeast(ps, 0.002) &&
            r.o15 == st.o15 + CountAtLeast(ps, 0.0015) &&
            r.o10 == st.o10 + CountAtLeast(ps, 0.001) &&
            r.o05 == st.o05 + CountAtLeast(ps, 0.0005) &&
            r.max == RunningMax(st.max, ps)
  {
    if |ps| > 0 {
      TallyCounts(st, ps[..|ps| - 1]);
    }
  }

  /** How many entries the scan reads: up to and including the first new
      opportunity, or all of them. */
  function Scanned(sp: seq<Spread>, last: seq<Spread>): (n: nat)
    requires |last| == |sp|
    ensures n <= |sp|
  {
    var f := FirstArb(sp, last, 0);
    if f < |sp| then f + 1 else |sp|
  }

  /** The tables after the scan: the statistics of the entries read, and the
      first new opportunity, if any, recorded and counted. */
  function AfterScan(tb: Tables): (r: Tables)
    requires |tb.last| == |tb.spreads|
    ensures r.spreads == tb.spreads && |r.last| == |tb.last|
  {
    var sp := tb.spreads;
    var f := FirstArb(sp, tb.last, 0);
    var st := Tally(tb.stats, sp[..Scanned(sp, tb.last)]);
    if f < |sp| then Tables(sp, tb.last[f := sp[f]], st.(arbCount := st.arbCount + 1))
    else Tables(sp, tb.last, st)
  }

  /** The scan when entry `j` is the first new opportunity. */
  lemma AfterScanFound(tb: Tables, j: nat, st: Stats)
    requires |tb.last| == |tb.spreads| && j < |tb.spreads|
    requires IsArb(tb.spreads[j], tb.last[j])
    requires forall m :: 0 <= m < j ==> !IsArb(tb.spreads[m], tb.last[m])
    requires st == Tally(tb.stats, tb.spreads[..j + 1])
    ensures AfterScan(tb) == Tables(tb.spreads, tb.last[j := tb.spreads[j]], st.(arbCount := st.arbCount + 1))
  {
    assert FirstArb(tb.spreads, tb.last, 0) == j;
  }

  /** The scan when there is no new opportunity. */
  lemma AfterScanNone(tb: Tables, st: Stats)
    requires |tb.last| == |tb.spreads|
    requires forall m :: 0 <= m < |tb.spreads| ==> !IsArb(tb.spreads[m], tb.last[m])
    requires st == Tally(tb.stats, tb.spreads[..|tb.spreads|])
    ensures AfterScan(tb) == Tables(tb.spreads, tb.last, st)
  {
    assert FirstArb(tb.spreads, tb.last, 0) == |tb.spreads|;
    assert tb.spreads[..|tb.spreads|] == tb.spreads;
  }

  /** The scan as the loop performs it: from entry `j` on, with the
      statistics gathered so far in `st`. */
  function ScanFrom(sp: seq<Spread>, last: seq<Spread>, st: Stats, j: nat): (r: Tables)
    requires |last| == |sp| && j <= |sp|
    ensures r.spreads == sp && |r.last| == |last|
    decreases |sp| - j
  {
    if j == |sp| then Tables(sp, last, st)
    else
      var st' := Bump(st, sp[j].percentage);
      if IsArb(sp[j], last[j]) then Tables(sp, last[j := sp[j]], st'.(arbCount := st'.arbCount + 1))
      else ScanFrom(sp, last, st', j + 1)
  }

  /** One step of the scan: the statistics take the entry, and the scan
      either stops there with the entry recorded or goes on. */
  lemma ScanFromStep(sp: seq<Spread>, last: seq<Spread>, st: Stats, j: nat)
    requires |last| == |sp| && j < |sp|
    ensures var st' := Bump(st, sp[j].percentage);
            ScanFrom(sp, last, st, j) ==
              if IsArb(sp[j], last[j]) then Tables(sp, last[j := sp[j]], st'.(arbCount := st'.arbCount + 1))
              else ScanFrom(sp, last, st', j + 1)
  {
  }

  /** The loop's scan computes the scan as specified, from wherever the loop
      stands, as long as no opportunity has been passed so far. */
  lemma {:induction false} ScanFromAfterScan(tb: Tables, st: Stats, j: nat)
    requires |tb.last| == |tb.spreads| && j <= |tb.spreads|
    requires forall m :: 0 <= m < j ==> !IsArb(tb.spreads[m], tb.last[m])
    requires st == Tally(tb.stats, tb.spreads[..j])
    ensures ScanFrom(tb.spreads, tb.last, st, j) == AfterScan(tb)
    decreases |tb.spreads| - j
  {
    if j == |tb.spreads| {
      AfterScanNone(tb, st);
    } else {
      TallyStep(tb.stats, tb.spreads, j);
      var st' := Bump(st, tb.spreads[j].percentage);
      if IsArb(tb.spreads[j], tb.last[j]) {
        AfterScanFound(tb, j, st');
      } else {
        ScanFromAfterScan(tb, st', j + 1);
      }
    }
  }

  /** The tables after `update_spread(k)`. */
  function AfterUpdate(tb: Tables, books: seq<Book>, k: nat): (r: Tables)
    requires |books| * (|books| - 1) <= |tb.spreads| && |tb.last| == |tb.spreads|
    ensures r.spreads == Refresh(tb.spreads, books, k, |books|) && |r.last| == |tb.last|
  {
    AfterScan(tb.(spreads := Refresh(tb.spreads, books, k, |books|)))
  }

  // ------------------------------------------------------------ properties

  /** The threshold counters are nested: o25 <= o20 <= o15 <= o10 <= o05. */
  predicate Nested(st: Stats) {
    st.o25 <= st.o20 <= st.o15 <= st.o10 <= st.o05
  }

  /** No counter and no best percentage goes down from `st` to `st'`. */
  predicate Grown(st: Stats, st': Stats) {
    st.arbCount <= st'.arbCount && st.o25 <= st'.o25 && st.o20 <= st'.o20 &&
    st.o15 <= st'.o15 && st.o10 <= st'.o10 && st.o05 <= st'.o05 &&
    (!st.max.NaN? ==> Ge(st'.max, st.max))
  }

  /** A higher threshold counts no more spreads than a lower one. */
  lemma {:induction false} CountAtLeastAntitone(ps: seq<Spread>, lo: real, hi: real)
    requires lo <= hi
    ensures CountAtLeast(ps, hi) <= CountAtLeast(ps, lo)
  {
    if |ps| > 0 {
      CountAtLeastAntitone(ps[..|ps| - 1], lo, hi);
      var p := ps[|ps| - 1].percentage;
      if Ge(p, Finite(hi)) {
        GeTransitive(p, Finite(hi), Finite(lo));
      }
    }
  }

  /** The best percentage never goes down, never becomes NaN, and is at
      least every (non-NaN) percentage compared with it. */
  lemma {:induction false} RunningMaxBound(m: F64, ps: seq<Spread>)
    requires !m.NaN?
    ensures !RunningMax(m, ps).NaN?
    ensures Ge(RunningMax(m, ps), m)
    ensures forall i :: 0 <= i < |ps| && !ps[i].percentage.NaN? ==> Ge(RunningMax(m, ps), ps[i].percentage)
  {
    if |ps| == 0 {
      GeReflexive(m);
    } else {
      var init := ps[..|ps| - 1];
      RunningMaxBound(m, init);
      var prev := RunningMax(m, init);
      var p := ps[|ps| - 1].percentage;
      var r := RunningMax(m, ps);
      if Ge(p, prev) {
        GeNotNaN(p, prev);
        GeTransitive(p, prev, m);
        forall i | 0 <= i < |init| && !init[i].percentage.NaN?
          ensures Ge(r, init[i].percentage)
        {
          GeTransitive(p, prev, init[i].percentage);
        }
        GeReflexive(p);
      } else {
        if !p.NaN? { GeTotal(p, prev); }
      }
      assert forall i :: 0 <= i < |init| ==> ps[i] == init[i];
    }
  }

  /** Scanning keeps the counters nested and grows every statistic. */
  lemma TallyGrows(st: Stats, ps: seq<Spread>)
    requires Nested(st) && !st.max.NaN?
    ensures Nested(Tally(st, ps)) && Grown(st, Tally(st, ps)) && !Tally(st, ps).max.NaN?
    ensures Tally(st, ps).arbCount == st.arbCount
    ensures forall i :: 0 <= i < |ps| && !ps[i].percentage.NaN? ==> Ge(Tally(st, ps).max, ps[i].percentage)
  {
    CountAtLeastAntitone(ps, 0.002, 0.0025);
    CountAtLeastAntitone(ps, 0.0015, 0.002);
    CountAtLeastAntitone(ps, 0.001, 0.0015);
    CountAtLeastAntitone(ps, 0.0005, 0.001);
    RunningMaxBound(st.max, ps);
    TallyCounts(st, ps);
  }

  /** The scan keeps the counters nested, never lowers a counter or the
      best percentage, and counts at most one opportunity. */
  lemma ScanGrows(tb: Tables)
    requires |tb.last| == |tb.spreads|
    requires Nested(tb.stats) && !tb.stats.max.NaN?
    ensures var r := AfterScan(tb);
            Nested(r.stats) && Grown(tb.stats, r.stats) && !r.stats.max.NaN? &&
            r.stats.arbCount <= tb.stats.arbCount + 1
  {
    TallyGrows(tb.stats, tb.spreads[..Scanned(tb.spreads, tb.last)]);
  }

  /** After the scan, the best percentage is at least every percentage the
      scan read. */
  lemma ScanMax(tb: Tables, i: nat)
    requires |tb.last| == |tb.spreads|
    requires Nested(tb.stats) && !tb.stats.max.NaN?
    requires i < Scanned(tb.spreads, tb.last) && !tb.spreads[i].percentage.NaN?
    ensures Ge(AfterScan(tb).stats.max, tb.spreads[i].percentage)
  {
    var ps := tb.spreads[..Scanned(tb.spreads, tb.last)];
    TallyGrows(tb.stats, ps);
    assert ps[i] == tb.spreads[i];
  }

  /** At most one record changes: the one at the first new opportunity, which
      then holds that spread; the opportunity count goes up by one exactly
      when there is such an opportunity, and is unchanged otherwise. */
  lemma ScanArb(tb: Tables)
    requires |tb.last| == |tb.spreads|
    ensures var r := AfterScan(tb);
            var f := FirstArb(tb.spreads, tb.last, 0);
            (forall j :: 0 <= j < |tb.last| && j != f ==> r.last[j] == tb.last[j]) &&
            (f < |tb.last| ==> r.last[f] == tb.spreads[f]) &&
            ((exists j :: 0 <= j < |tb.last| && IsArb(tb.spreads[j], tb.last[j])) <==>
              r.stats.arbCount == tb.stats.arbCount + 1) &&
            ((forall j :: 0 <= j < |tb.last| ==> !IsArb(tb.spreads[j], tb.last[j])) ==>
              r.last == tb.last && r.stats.arbCount == tb.stats.arbCount)
  {
    var f := FirstArb(tb.spreads, tb.last, 0);
    TallyCounts(tb.stats, tb.spreads[..Scanned(tb.spreads, tb.last)]);
    if f < |tb.last| {
      assert IsArb(tb.spreads[f], tb.last[f]);
    }
  }

  // ------------------------------------------------------------ the table

  class MultiBook {
    const s: nat
    const t: nat
    var pair: string
    var books: seq<Book>
    const spreads: array<Spread>
    const lastSpreads: array<Spread>
    var arbCount: nat
    var o25: nat
    var o20: nat
    var o15: nat
    var o10: nat
    var o05: nat
    var max: F64

    ghost predicate Valid()
      reads this`books
    {
      |books| == s && spreads.Length == t && lastSpreads.Length == t && spreads != lastSpreads
    }

    function Counters(): Stats
      reads this
    {
      Stats(arbCount, o25, o20, o15, o10, o05, max)
    }

    function State(): Tables
      reads this, spreads, lastSpreads
    {
      Tables(spreads[..], lastSpreads[..], Counters())
    }

    /** `MultiBook::new`: one empty book per name, in order, and `t` default
        spreads and records. */
    constructor (pair: string, names: seq<string>, t: nat)
      ensures Valid() && s == |names| && this.t == t && this.pair == pair
      ensures books == seq(|names|, i requires 0 <= i < |names| => Book(names[i], pair, None, None))
      ensures fresh(spreads) && fresh(lastSpreads)
      ensures forall j :: 0 <= j < t ==> spreads[j] == DefaultSpread && lastSpreads[j] == DefaultSpread
      ensures Counters() == Stats(0, 0, 0, 0, 0, 0, Finite(0.0))
    {
      var bs: seq<Book> := [];
      var i := 0;
      while i < |names|
        invariant 0 <= i <= |names|
        invariant bs == seq(i, j requires 0 <= j < i => Book(names[j], pair, None, None))
      {
        bs := bs + [Book(names[i], pair, None, None)];
        i := i + 1;
      }
      var sps := new Spread[t];
      var lasts := new Spread[t];
      var j := 0;
      while j < t
        invariant 0 <= j <= t
        invariant forall m :: 0 <= m < j ==> sps[m] == DefaultSpread && lasts[m] == DefaultSpread
      {
        sps[j] := DefaultSpread;
        lasts[j] := DefaultSpread;
        j := j + 1;
      }
      s := |names|;
      this.t := t;
      this.pair := pair;
      books := bs;
      spreads := sps;
      lastSpreads := lasts;
      arbCount, o25, o20, o15, o10, o05 := 0, 0, 0, 0, 0, 0;
      max := Finite(0.0);
    }

    /** `update_spread(k)`: recompute the entries of every pair involving
        book `k`, then scan the table. */
    method UpdateSpread(k: nat)
      requires Valid() && k < s && s * (s - 1) <= t
      modifies spreads, this`arbCount, this`o25, this`o20, this`o15, this`o10, this`o05, this`max, lastSpreads
      ensures Valid()
      ensures State() == AfterUpdate(old(State()), books, k)
    {
      RefreshSpreads(k);
      ScanSpreads();
    }

    /** The first loop of `update_spread`: for every other book `i`, the
        forward entry (k, i) and the reverse entry (i, k), each written only
        when both of its prices exist. */
    method RefreshSpreads(k: nat)
      requires Valid() && k < s && s * (s - 1) <= t
      modifies spreads
      ensures spreads[..] == Refresh(old(spreads[..]), books, k, s)
    {
      var i := 0;
      while i < s
        invariant 0 <= i <= s
        invariant spreads[..] == Refresh(old(spreads[..]), books, k, i)
      {
        RefreshStep(old(spreads[..]), books, k, i);
        if i != k {
          WriteSpread(k, i);
          WriteSpread(i, k);
        }
        i := i + 1;
      }
    }

    /** One write of the first loop: the spread of buying at a's best ask
        and selling at b's best bid, stored at the index the source
        computes, provided both prices exist. */
    method WriteSpread(a: nat, b: nat)
      requires Valid() && a < s && b < s && a != b && s * (s - 1) <= t
      modifies spreads
      ensures spreads[..] == Put(old(spreads[..]), books, a, b)
    {
      var buy := GetBest(Sell, books[a]);
      var sell := GetBest(Buy, books[b]);
      if buy.Some? && sell.Some? {
        var spread := SpreadFromLevels(buy.value.0, sell.value.0, (buy.value.1, sell.value.1));
        var idx: int := a * s + b;
        if b < a { idx := idx - a; } else { idx := idx - (a + 1); }
        assert idx == PairIndex(s, a, b);
        spreads[idx] := spread;
      }
    }

    /** The second loop of `update_spread`: count, track the best percentage,
        and stop at the first new opportunity, recording it. */
    method ScanSpreads()
      requires Valid()
      modifies this`arbCount, this`o25, this`o20, this`o15, this`o10, this`o05, this`max, lastSpreads
      ensures State() == AfterScan(old(State()))
    {
      ghost var tb0 := State();
      ghost var goal := ScanFrom(tb0.spreads, tb0.last, tb0.stats, 0);
      var j := 0;
      while j < t
        invariant 0 <= j <= t
        invariant spreads[..] == tb0.spreads && lastSpreads[..] == tb0.last
        invariant ScanFrom(tb0.spreads, tb0.last, Counters(), j) == goal
      {
        var spread := spreads[j];
        ScanFromStep(tb0.spreads, tb0.last, Counters(), j);
        Tick(spread.percentage);
        if Ge(spread.percentage, Finite(0.002)) &&
           (lastSpreads[j].seqs.0 == 0 || (spread.seqs.0 != lastSpreads[j].seqs.0 || spread.seqs.1 != lastSpreads[j].seqs.1))
        {
          Record(j, spread);
          ScanFromAfterScan(tb0, tb0.stats, 0);
          return;
        }
        j := j + 1;
      }
      ScanFromAfterScan(tb0, tb0.stats, 0);
    }

    /** The counting part of one step of the second loop: each threshold's
        counter goes up when the percentage reaches it, and the best so far
        is replaced when the percentage is `>=` it. */
    method Tick(p: F64)
      modifies this`o25, this`o20, this`o15, this`o10, this`o05, this`max
      ensures Counters() == Bump(old(Counters()), p)
    {
      if Ge(p, Finite(0.0025)) { o25 := o25 + 1; }
      if Ge(p, Finite(0.002)) { o20 := o20 + 1; }
      if Ge(p, Finite(0.0015)) { o15 := o15 + 1; }
      if Ge(p, Finite(0.001)) { o10 := o10 + 1; }
      if Ge(p, Finite(0.0005)) { o05 := o05 + 1; }
      if Ge(p, max) { max := p; }
    }

    /** Recording an opportunity: the entry's record becomes the spread and
        the opportunity count goes up by one. */
    method Record(j: nat, spread: Spread)
      requires Valid() && j < t
      modifies lastSpreads, this`arbCount
      ensures lastSpreads[..] == old(lastSpreads[..])[j := spread]
      ensures Counters() == old(Counters()).(arbCount := old(arbCount) + 1)
    {
      lastSpreads[j] := spread;
      arbCount := arbCount + 1;
    }
  }
}
