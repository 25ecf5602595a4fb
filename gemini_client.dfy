/** The Gemini receive client (core/src/order_book/clients/gemini/gemini_client.rs):
    the symbol and subscription message for a currency pair, and the receive
    loop that treats every message as a snapshot candidate until one parses,
    then every later message as an update. The JSON parsers are passed in as
    partial functions. */
module GeminiClient {
  import opened Wrappers
  import opened Socket
  import GA = GeminiAdapter

  /** The Gemini symbol of a supported pair; any other pair panics, which
      is `None` here. */
  function Symbol(pair: string): (r: Option<string>)
    ensures r.Some? <==> pair in {"ETH-USD", "BTC-USD", "ETH-USDT", "BTC-USDT"}
  {
    match pair
    case "ETH-USD" => Some("ETHUSD")
    case "BTC-USD" => Some("BTCUSD")
    case "ETH-USDT" => Some("ETHUSDT")
    case "BTC-USDT" => Some("BTCUSDT")
    case _ => None
  }

  /** Each symbol is its pair with the dash removed. */
  lemma SymbolDropsDash(pair: string)
    requires Symbol(pair).Some?
    ensures var sym := Symbol(pair).value;
            exists d :: 0 <= d <= |sym| && pair == sym[..d] + "-" + sym[d..]
  {
    var sym := Symbol(pair).value;
    assert pair == sym[..3] + "-" + sym[3..];
  }

  /** Different pairs have different symbols. */
  lemma SymbolInjective(p: string, q: string)
    requires Symbol(p).Some? && Symbol(p) == Symbol(q)
    ensures p == q
  {
  }

  const SubscriptionPrefix := "{\"type\":\"subscribe\",\"subscriptions\":[{\"name\":\"l2\",\"symbols\":["
  const SubscriptionSuffix := "]}]}"

  /** The subscription message: the symbol is written with `{:?}`, that is
      between double quotes (none of the symbols needs escaping). */
  function Subscription(symbol: string): (m: string)
    ensures |m| == |SubscriptionPrefix| + |symbol| + 2 + |SubscriptionSuffix|
  {
    SubscriptionPrefix + "\"" + symbol + "\"" + SubscriptionSuffix
  }

  /** The symbol can be read back from the message, so different symbols
      give different messages. */
  lemma SubscriptionSymbol(symbol: string)
    ensures var m := Subscription(symbol);
            m[|SubscriptionPrefix| + 1 .. |m| - 1 - |SubscriptionSuffix|] == symbol
  {
  }

  /** The adapter calls made by the receive loop from here on, given the
      stream still to come and whether a snapshot has been handled. */
  function Run(items: seq<SocketItem>, init: bool,
               parseSnapshot: string -> Option<GA.Content>, parseUpdate: string -> Option<GA.Content>): seq<Call<GA.Content>>
    decreases |items|
  {
    if |items| == 0 then []
    else
      match items[0]
      case Error => Run(items[1..], init, parseSnapshot, parseUpdate)
      case Text(msg) =>
        if init then
          (match parseUpdate(msg)
           case Some(u) => [HandleUpdate(u)] + Run(items[1..], true, parseSnapshot, parseUpdate)
           case None => Run(items[1..], true, parseSnapshot, parseUpdate))
        else
          (match parseSnapshot(msg)
           case Some(s) => [HandleSnapshot(s)] + Run(items[1..], true, parseSnapshot, parseUpdate)
           case None => Run(items[1..], false, parseSnapshot, parseUpdate))
  }

  /** `receive`: socket errors are printed and skipped; until a snapshot
      parses, each text is tried as a snapshot and nothing else; then each
      text is tried as an update. */
  method Receive(items: seq<SocketItem>, parseSnapshot: string -> Option<GA.Content>, parseUpdate: string -> Option<GA.Content>)
      returns (calls: seq<Call<GA.Content>>)
    ensures calls == Run(items, false, parseSnapshot, parseUpdate)
  {
    calls := [];
    var init := false;
    var i := 0;
    while i < |items|
      invariant 0 <= i <= |items|
      invariant calls + Run(items[i..], init, parseSnapshot, parseUpdate) == Run(items, false, parseSnapshot, parseUpdate)
    {
      assert items[i..][1..] == items[i + 1..];
      match items[i] {
        case Text(msg) =>
          if init {
            match parseUpdate(msg) {
              case Some(u) => calls := calls + [HandleUpdate(u)];
              case None =>
            }
          } else {
            match parseSnapshot(msg) {
              case Some(s) =>
                calls := calls + [HandleSnapshot(s)];
                init := true;
              case None =>
            }
          }
        case Error =>
      }
      i := i + 1;
    }
  }

  /** `init`: a supported pair sends its subscription once, then runs the
      receive loop; any other pair panics before sending anything. */
  method Init(pair: string, items: seq<SocketItem>,
              parseSnapshot: string -> Option<GA.Content>, parseUpdate: string -> Option<GA.Content>)
      returns (sent: Option<string>, calls: seq<Call<GA.Content>>)
    ensures Symbol(pair).None? ==> sent.None? && calls == []
    ensures Symbol(pair).Some? ==> sent == Some(Subscription(Symbol(pair).value)) &&
                                   calls == Run(items, false, parseSnapshot, parseUpdate)
  {
    var p := Symbol(pair);
    if p.None? {
      return None, [];
    }
    sent := Some(SubscriptionPrefix + "\"" + p.value + "\"" + SubscriptionSuffix);
    calls := Receive(items, parseSnapshot, parseUpdate);
  }

  // ------------------------------------------------------------ properties

  /** The index of the first text that parses as a snapshot, or `|items|`. */
  function FirstSnapshot(items: seq<SocketItem>, parseSnapshot: string -> Option<GA.Content>): (f: nat)
    ensures f <= |items|
    ensures forall j :: 0 <= j < f && items[j].Text? ==> parseSnapshot(items[j].text).None?
    ensures f < |items| ==> items[f].Text? && parseSnapshot(items[f].text).Some?
    decreases |items|
  {
    if |items| == 0 then 0
    else if items[0].Text? && parseSnapshot(items[0].text).Some? then 0
    else 1 + FirstSnapshot(items[1..], parseSnapshot)
  }

  /** Once initialised, the loop only ever handles updates. */
  lemma {:induction false} OnlyUpdatesAfterInit(items: seq<SocketItem>, parseSnapshot: string -> Option<GA.Content>, parseUpdate: string -> Option<GA.Content>)
    ensures forall i :: 0 <= i < |Run(items, true, parseSnapshot, parseUpdate)| ==> Run(items, true, parseSnapshot, parseUpdate)[i].HandleUpdate?
    decreases |items|
  {
    if |items| > 0 {
      OnlyUpdatesAfterInit(items[1..], parseSnapshot, parseUpdate);
    }
  }

  /** The loop handles a snapshot exactly when some text parses as one; the
      first such text is the snapshot, it is handled first and once, and the
      rest of the stream is handled as updates. */
  lemma {:induction false} SnapshotFirst(items: seq<SocketItem>, parseSnapshot: string -> Option<GA.Content>, parseUpdate: string -> Option<GA.Content>)
    ensures var r := Run(items, false, parseSnapshot, parseUpdate);
            var f := FirstSnapshot(items, parseSnapshot);
            (f == |items| ==> r == []) &&
            (f < |items| ==> r == [HandleSnapshot(parseSnapshot(items[f].text).value)] + Run(items[f + 1..], true, parseSnapshot, parseUpdate))
    decreases |items|
  {
    if |items| > 0 {
      SnapshotFirst(items[1..], parseSnapshot, parseUpdate);
      var f := FirstSnapshot(items, parseSnapshot);
      if f > 0 && f < |items| {
        assert items[1..][f - 1 + 1..] == items[f + 1..];
      }
    }
  }

  /** Hence at most one snapshot is handled, and only as the first call. */
  lemma SnapshotOnce(items: seq<SocketItem>, parseSnapshot: string -> Option<GA.Content>, parseUpdate: string -> Option<GA.Content>)
    ensures var r := Run(items, false, parseSnapshot, parseUpdate);
            forall i :: 0 <= i < |r| ==> (r[i].HandleSnapshot? <==> i == 0)
  {
    SnapshotFirst(items, parseSnapshot, parseUpdate);
    var f := FirstSnapshot(items, parseSnapshot);
    if f < |items| {
      OnlyUpdatesAfterInit(items[f + 1..], parseSnapshot, parseUpdate);
    }
  }

  /** Socket errors change nothing: the loop makes the same calls on the
      stream without them. */
  lemma {:induction false} ErrorsSkipped(items: seq<SocketItem>, init: bool, parseSnapshot: string -> Option<GA.Content>, parseUpdate: string -> Option<GA.Content>)
    ensures Run(Texts(items), init, parseSnapshot, parseUpdate) == Run(items, init, parseSnapshot, parseUpdate)
    decreases |items|
  {
    if |items| > 0 {
      ErrorsSkipped(items[1..], true, parseSnapshot, parseUpdate);
      ErrorsSkipped(items[1..], false, parseSnapshot, parseUpdate);
      if items[0].Text? {
        assert ([items[0]] + Texts(items[1..]))[1..] == Texts(items[1..]);
      }
    }
  }
}
