/** What the receive loops of the exchange clients see and do. The socket is
    the finite sequence of items it yields (a text frame or an error), and
    a receive loop's effect is the sequence of adapter calls it makes. */
module Socket {

  datatype SocketItem = Text(text: string) | Error

  /** A call from a client to its adapter: `handle_snapshot` (which runs
      `init_order_book`) or `handle_update` (which runs `update`). */
  datatype Call<T> = HandleSnapshot(snapshot: T) | HandleUpdate(update: T)

  /** The text items of a stream, in order, without its errors. */
  function Texts(items: seq<SocketItem>): (r: seq<SocketItem>)
    ensures |r| <= |items|
    ensures forall i :: 0 <= i < |r| ==> r[i].Text?
    ensures forall x :: Text(x) in r <==> Text(x) in items
  {
    if |items| == 0 then []
    else if items[0].Error? then Texts(items[1..])
    else [items[0]] + Texts(items[1..])
  }

  /** Filtering a stream distributes over splitting it. */
  lemma {:induction false} TextsAppend(a: seq<SocketItem>, b: seq<SocketItem>)
    ensures Texts(a + b) == Texts(a) + Texts(b)
    decreases |a|
  {
    if |a| == 0 {
      assert a + b == b;
    } else {
      assert (a + b)[0] == a[0];
      assert (a + b)[1..] == a[1..] + b;
      TextsAppend(a[1..], b);
    }
  }

  /** A text frame is kept, in its place between the frames around it. */
  lemma TextKept(a: seq<SocketItem>, x: string, b: seq<SocketItem>)
    ensures Texts(a + [Text(x)] + b) == Texts(a) + [Text(x)] + Texts(b)
  {
    var t := [Text(x)];
    assert t[1..] == [];
    TextsAppend(a + t, b);
    TextsAppend(a, t);
  }

  /** An error is dropped, and the frames around it stay as they were. */
  lemma ErrorDropped(a: seq<SocketItem>, b: seq<SocketItem>)
    ensures Texts(a + [Error] + b) == Texts(a) + Texts(b)
  {
    var e := [Error];
    assert e[1..] == [];
    TextsAppend(a + e, b);
    TextsAppend(a, e);
  }
}
