/** The Bitstamp receive client (core/src/order_book/clients/bitstamp/bitstamp_client.rs):
    the channel name and subscription message for a currency pair, and the
    receive loop that hands the first message that parses to the adapter as
    the snapshot and every later one as an update, and stops at the first
    socket error. The JSON parser is passed in as a partial function. */
module BitstampClient {
  import opened Wrappers
  import opened Socket
  import BA = BitstampAdapter

  /** The Bitstamp symbol of a supported pair; any other pair panics, which
      is `None` here. */
  function Symbol(pair: string): (r: Option<string>)
    ensures r.Some? <==> pair in {"ETH-USD", "BTC-USD", "ETH-USDT", "BTC-USDT"}
  {
    match pair
    case "ETH-USD" => Some("ethusd")
    case "BTC-USD" => Some("btcusd")
    case "ETH-USDT" => Some("ethusdt")
    case "BTC-USDT" => Some("btcusdt")
    case _ => None
  }

  /** An upper-case ASCII letter's lower-case form; other characters stay. */
  function Lower(c: char): char {
    if 'A' <= c <= 'Z' then (c as int + 32) as char else c
  }

  /** Each symbol is its pair with the dash removed, in lower case. */
  lemma SymbolLowerNoDash(pair: string)
    requires Symbol(pair).Some?
    ensures var sym := Symbol(pair).value;
            |pair| == |sym| + 1 &&
            pair[3] == '-' &&
            (forall i :: 0 <= i < 3 ==> sym[i] == Lower(pair[i])) &&
            (forall i :: 3 < i < |pair| ==> sym[i - 1] == Lower(pair[i]))
  {
  }

  /** Different pairs have different symbols. */
  lemma SymbolInjective(p: string, q: string)
    requires Symbol(p).Some? && Symbol(p) == Symbol(q)
    ensures p == q
  {
  }

  const SubscriptionPrefix := "{\"event\": \"bts:subscribe\",\"data\": {\"channel\": \"diff_order_book_"
  const SubscriptionSuffix := "\"}}"

  /** The subscription message for the differential order-book channel. */
  function Subscription(symbol: string): (m: string)
    ensures |m| == |SubscriptionPrefix| + |symbol| + |SubscriptionSuffix|
  {
    SubscriptionPrefix + symbol + SubscriptionSuffix
  }

  /** The symbol can be read back from the message. */
  lemma SubscriptionSymbol(symbol: string)
    ensures var m := Subscription(symbol);
            m[|SubscriptionPrefix| .. |m| - |SubscriptionSuffix|] == symbol
  {
  }

  /** The adapter calls made by the receive loop from here on, given the
      stream still to come and whether a snapshot has been handled. */
  function Run(items: seq<SocketItem>, init: bool, parse: string -> Option<BA.Update>): seq<Call<BA.Update>>
    decreases |items|
  {
    if |items| == 0 then []
    else
      match items[0]
      case Error => []
      case Text(msg) =>
        match parse(msg)
        case Some(u) => [if init then HandleUpdate(u) else HandleSnapshot(u)] + Run(items[1..], true, parse)
        case None => Run(items[1..], init, parse)
  }

  /** `receive`: each text is parsed; the first success is the snapshot and
      every later one an update; parse failures are skipped; a socket error
      ends the loop, as does the end of the stream. */
  method Receive(items: seq<SocketItem>, parse: string -> Option<BA.Update>) returns (calls: seq<Call<BA.Update>>)
    ensures calls == Run(items, false, parse)
  {
    calls := [];
    var init := false;
    var i := 0;
    while i < |items|
      invariant 0 <= i <= |items|
      invariant calls + Run(items[i..], init, parse) == Run(items, false, parse)
    {
      assert items[i..][1..] == items[i + 1..];
      match items[i] {
        case Text(msg) =>
          match parse(msg) {
            case Some(update) =>
              if init {
                calls := calls + [HandleUpdate(update)];
              } else {
                calls := calls + [HandleSnapshot(update)];
                init := true;
              }
            case None =>
          }
        case Error =>
          return;
      }
      i := i + 1;
    }
  }

  /** `init`: a supported pair sends its subscription once, then runs the
      receive loop; any other pair panics before sending anything. */
  method Init(pair: string, items: seq<SocketItem>, parse: string -> Option<BA.Update>)
      returns (sent: Option<string>, calls: seq<Call<BA.Update>>)
    ensures Symbol(pair).None? ==> sent.None? && calls == []
    ensures Symbol(pair).Some? ==> sent == Some(Subscription(Symbol(pair).value)) && calls == Run(items, false, parse)
  {
    var p := Symbol(pair);
    if p.None? {
      return None, [];
    }
    sent := Some(SubscriptionPrefix + p.value + SubscriptionSuffix);
    calls := Receive(items, parse);
  }

  // ------------------------------------------------------------ properties

  /** Nothing after a socket error is read: the calls are those made on the
      stream cut at any error. */
  lemma {:induction false} StopsAtError(items: seq<SocketItem>, init: bool, parse: string -> Option<BA.Update>, e: nat)
    requires e < |items| && items[e].Error?
    ensures Run(items, init, parse) == Run(items[..e], init, parse)
    decreases |items|
  {
    if e > 0 {
      assert items[..e][1..] == items[1..][..e - 1];
      StopsAtError(items[1..], true, parse, e - 1);
      StopsAtError(items[1..], init, parse, e - 1);
    }
  }

  /** The index of the first text that parses, or `|items|`. */
  function FirstParsed(items: seq<SocketItem>, parse: string -> Option<BA.Update>): (f: nat)
    ensures f <= |items|
    ensures forall j :: 0 <= j < f && items[j].Text? ==> parse(items[j].text).None?
    ensures f < |items| ==> items[f].Text? && parse(items[f].text).Some?
    decreases |items|
  {
    if |items| == 0 then 0
    else if items[0].Text? && parse(items[0].text).Some? then 0
    else 1 + FirstParsed(items[1..], parse)
  }

  /** Once initialised, the loop only ever handles updates. */
  lemma {:induction false} OnlyUpdatesAfterInit(items: seq<SocketItem>, parse: string -> Option<BA.Update>)
    ensures forall i :: 0 <= i < |Run(items, true, parse)| ==> Run(items, true, parse)[i].HandleUpdate?
    decreases |items|
  {
    if |items| > 0 && items[0].Text? {
      OnlyUpdatesAfterInit(items[1..], parse);
    }
  }

  /** The snapshot is the first message that parses, provided no socket
      error comes before it; it is handled first, and the rest of the stream
      is handled as updates. With an error first, nothing is handled. */
  lemma {:induction false} SnapshotFirst(items: seq<SocketItem>, parse: string -> Option<BA.Update>)
    ensures var r := Run(items, false, parse);
            var f := FirstParsed(items, parse);
            ((f == |items| || exists j :: 0 <= j < f && items[j].Error?) ==> r == []) &&
            (f < |items| && (forall j :: 0 <= j < f ==> items[j].Text?) ==>
               r == [HandleSnapshot(parse(items[f].text).value)] + Run(items[f + 1..], true, parse))
    decreases |items|
  {
    if |items| > 0 {
      SnapshotFirst(items[1..], parse);
      var f := FirstParsed(items, parse);
      if f > 0 {
        assert forall j :: 0 <= j < f - 1 ==> items[1..][j] == items[j + 1];
        if f < |items| {
          assert items[1..][f - 1 + 1..] == items[f + 1..];
        }
      }
    }
  }

  /** Hence at most one snapshot is handled, and only as the first call. */
  lemma SnapshotOnce(items: seq<SocketItem>, parse: string -> Option<BA.Update>)
    ensures var r := Run(items, false, parse);
            forall i :: 0 <= i < |r| ==> (r[i].HandleSnapshot? <==> i == 0)
  {
    SnapshotFirst(items, parse);
    var f := FirstParsed(items, parse);
    if f < |items| {
      OnlyUpdatesAfterInit(items[f + 1..], parse);
    }
  }
}
