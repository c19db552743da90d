/** The list of live event-stream connections (`mcpClients`, js/app.js:39):
    a connection is appended when its `/sse` request arrives (js/app.js:136)
    and filtered out when that request closes (js/app.js:137-139). */
module Registry {

  /** A connection's response object. The source tells connections apart
      only by reference (`client !== res`), so an identity is all it has. */
  type Conn = nat

  /** `mcpClients.push(res)`. */
  function Register(clients: seq<Conn>, c: Conn): (r: seq<Conn>)
    ensures |r| == |clients| + 1 && r[|clients|] == c
    ensures r[..|clients|] == clients
  {
    clients + [c]
  }

  /** `mcpClients.filter((client) => client !== res)`. */
  function Close(clients: seq<Conn>, c: Conn): (r: seq<Conn>)
    ensures c !in r
    ensures |r| <= |clients|
  {
    if |clients| == 0 then []
    else (if clients[0] == c then [] else [clients[0]]) + Close(clients[1..], c)
  }

  /** Closing removes every registration of `c` and keeps every other
      connection as often as it was registered. */
  lemma {:induction false} CloseCounts(clients: seq<Conn>, c: Conn)
    ensures multiset(Close(clients, c))[c] == 0
    ensures forall x :: x != c ==> multiset(Close(clients, c))[x] == multiset(clients)[x]
    ensures |Close(clients, c)| == |clients| - multiset(clients)[c]
    decreases |clients|
  {
    if |clients| > 0 {
      assert clients == [clients[0]] + clients[1..];
      CloseCounts(clients[1..], c);
    }
  }

  /** Filtering distributes over concatenation: the connections that stay
      keep their relative order. */
  lemma {:induction false} CloseConcat(a: seq<Conn>, b: seq<Conn>, c: Conn)
    ensures Close(a + b, c) == Close(a, c) + Close(b, c)
    decreases |a|
  {
    if |a| > 0 {
      var h := if a[0] == c then [] else [a[0]];
      assert (a + b)[0] == a[0];
      assert (a + b)[1..] == a[1..] + b;
      assert Close(a + b, c) == h + Close(a[1..] + b, c);
      CloseConcat(a[1..], b, c);
      assert Close(a, c) == h + Close(a[1..], c);
    } else {
      assert a + b == b;
    }
  }

  /** Closing a connection that is not registered changes nothing. */
  lemma {:induction false} CloseAbsent(clients: seq<Conn>, c: Conn)
    requires c !in clients
    ensures Close(clients, c) == clients
    decreases |clients|
  {
    if |clients| > 0 {
      CloseAbsent(clients[1..], c);
    }
  }

  /** A second close of the same connection is a no-op. */
  lemma CloseIdempotent(clients: seq<Conn>, c: Conn)
    ensures Close(Close(clients, c), c) == Close(clients, c)
  {
    CloseAbsent(Close(clients, c), c);
  }

  /** Two closes may happen in either order. */
  lemma {:induction false} CloseCommutes(clients: seq<Conn>, c: Conn, d: Conn)
    ensures Close(Close(clients, c), d) == Close(Close(clients, d), c)
    decreases |clients|
  {
    if |clients| > 0 {
      var x, t := clients[0], clients[1..];
      var hc := if x == c then [] else [x];
      var hd := if x == d then [] else [x];
      assert Close(clients, c) == hc + Close(t, c);
      assert Close(clients, d) == hd + Close(t, d);
      CloseConcat(hc, Close(t, c), d);
      CloseConcat(hd, Close(t, d), c);
      CloseCommutes(t, c, d);
      assert Close(hc, d) == Close(hd, c) by {
        if x != c && x != d {
          assert Close([x], d) == [x] + Close([], d);
          assert Close([x], c) == [x] + Close([], c);
        }
      }
    }
  }

  /** Closing a connection undoes its registration. */
  lemma {:induction false} CloseUndoesRegister(clients: seq<Conn>, c: Conn)
    ensures Close(Register(clients, c), c) == Close(clients, c)
    ensures c !in clients ==> Close(Register(clients, c), c) == clients
  {
    assert Close([c], c) == [] + Close([], c);
    CloseConcat(clients, [c], c);
    if c !in clients {
      CloseAbsent(clients, c);
    }
  }

  /** Registering one connection does not disturb the removal of another. */
  lemma {:induction false} CloseOtherAfterRegister(clients: seq<Conn>, c: Conn, d: Conn)
    requires d != c
    ensures Close(Register(clients, c), d) == Register(Close(clients, d), c)
  {
    assert Close([c], d) == [c] + Close([], d);
    CloseConcat(clients, [c], d);
  }
}
