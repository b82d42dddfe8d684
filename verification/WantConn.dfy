/** The record a parked request waits on, and the queue it waits in
    (fasthttp/client.go:2506-2632). */
module WantConns {
  import opened Common

  type ConnId = nat
  type WantId = nat

  /** The fields of a wantConn. `err` says whether the error is set; `closes`
      counts how often the ready channel has been closed (a second close would
      panic). */
  datatype Want = Want(conn: Option<ConnId>, err: bool, closes: nat) {
    predicate Resolved() { conn.Some? || err }

    /** The ready channel is closed exactly when a result is set, and never twice. */
    predicate Valid() {
      && closes == (if Resolved() then 1 else 0)
      && !(conn.Some? && err)
    }
  }

  const FreshWant := Want(None, false, 0)

  datatype Parcel = Conn(c: ConnId) | Failure

  function Deliver(w: Want, p: Parcel): Want {
    if w.Resolved() then w
    else Want(if p.Conn? then Some(p.c) else None, p.Failure?, w.closes + 1)
  }

  function Cancel(w: Want): Want {
    Want(None, true, if w.Resolved() then w.closes else w.closes + 1)
  }

  /** Of all deliveries and cancellations of one wantConn, in any order, exactly
      the first one closes the ready channel. */
  datatype Attempt = Offered(p: Parcel) | Cancelled

  function Replay(w: Want, attempts: seq<Attempt>): Want {
    if attempts == [] then w
    else
      var v := Replay(w, attempts[..|attempts| - 1]);
      match attempts[|attempts| - 1]
      case Offered(p) => Deliver(v, p)
      case Cancelled => Cancel(v)
  }

  lemma {:induction false} ResolvedAtMostOnce(attempts: seq<Attempt>)
    ensures var w := Replay(FreshWant, attempts);
      && w.Valid()
      && w.closes == (if attempts == [] then 0 else 1)
      && (Cancelled in attempts ==> w.conn == None)
      && (attempts != [] && Cancelled !in attempts ==>
            w.conn == (if attempts[0].p.Conn? then Some(attempts[0].p.c) else None))
  {
    if attempts != [] {
      var front, last := attempts[..|attempts| - 1], attempts[|attempts| - 1];
      ResolvedAtMostOnce(front);
      assert attempts == front + [last];
      if front != [] { assert front[0] == attempts[0]; }
    }
  }

  class WantConn {
    const id: WantId
    var conn: Option<ConnId>
    var err: bool
    var closes: nat

    constructor (id: WantId)
      ensures this.id == id && View() == FreshWant
    {
      this.id := id;
      conn, err, closes := None, false, 0;
    }

    function View(): Want reads this { Want(conn, err, closes) }

    /** The ready channel is still open. */
    predicate Waiting() reads this { closes == 0 }

    method TryDeliver(p: Parcel) returns (delivered: bool)
      modifies this
      ensures View() == Deliver(old(View()), p)
      ensures delivered == !old(View()).Resolved()
      ensures delivered ==> (p.Conn? ==> conn == Some(p.c))
    {
      if conn.Some? || err { return false; }
      match p {
        case Conn(c) => conn := Some(c);
        case Failure => err := true;
      }
      closes := closes + 1;
      return true;
    }

    /** Returns the connection that has to go back to the pool, if one had
        been delivered. */
    method CancelWait() returns (returned: Option<ConnId>)
      modifies this
      ensures View() == Cancel(old(View()))
      ensures returned == old(conn)
    {
      if conn.None? && !err { closes := closes + 1; }
      returned := conn;
      conn, err := None, true;
    }
  }

  /** A queue in two stages, head[headPos..] and tail. */
  class WantConnQueue<T> {
    var head: seq<T>
    var tail: seq<T>
    var headPos: nat

    ghost predicate Valid() reads this { headPos <= |head| }

    /** The plain FIFO sequence the two stages stand for. */
    ghost function Contents(): seq<T>
      requires Valid()
      reads this
    {
      head[headPos..] + tail
    }

    constructor ()
      ensures Valid() && Contents() == []
    {
      head, tail, headPos := [], [], 0;
    }

    function Len(): (n: nat)
      requires Valid()
      reads this
      ensures n == |Contents()|
    {
      |head| - headPos + |tail|
    }

    method PushBack(w: T)
      requires Valid()
      modifies this
      ensures Valid() && Contents() == old(Contents()) + [w]
    {
      tail := tail + [w];
    }

    method PopFront() returns (w: Option<T>)
      requires Valid()
      modifies this
      ensures Valid()
      ensures old(Contents()) == [] ==> w == None && Contents() == []
      ensures old(Contents()) != [] ==>
                w == Some(old(Contents())[0]) && Contents() == old(Contents())[1..]
    {
      if headPos >= |head| {
        if |tail| == 0 { return None; }
        head, headPos, tail := tail, 0, [];
      }
      w := Some(head[headPos]);
      headPos := headPos + 1;
    }

    method PeekFront() returns (w: Option<T>)
      requires Valid()
      ensures w == if Contents() == [] then None else Some(Contents()[0])
    {
      if headPos < |head| { return Some(head[headPos]); }
      if |tail| > 0 { return Some(tail[0]); }
      return None;
    }
  }
}
