/** The critical sections of the HostClient connection pool, each as one function
    on the state that connsLock guards (fasthttp/client.go:1848-2229). */
module HostPool {
  import opened Common
  import opened WantConns

  const DefaultMaxConnsPerHost := 512

  datatype Strategy = LIFO | FIFO | Unsupported

  /** What connsLock guards, with the wantConns reachable from the queue or from
      a goroutine. `waitEnabled` is MaxConnWaitTimeout > 0. */
  datatype Pool = Pool(
    conns: seq<ConnId>,
    connsCount: int,
    maxConns: int,
    queue: seq<WantId>,
    wants: map<WantId, Want>,
    cleanerRun: bool,
    waitEnabled: bool,
    strategy: Strategy)

  function Cap(p: Pool): (n: int)
    ensures n > 0
  {
    if p.maxConns <= 0 then DefaultMaxConnsPerHost else p.maxConns
  }

  predicate Waiting(wants: map<WantId, Want>, w: WantId) {
    w in wants && wants[w].closes == 0
  }

  /** The connection an acquisition takes from a non-empty idle list, and the rest. */
  function PopIdle(conns: seq<ConnId>, lifo: bool): (ConnId, seq<ConnId>)
    requires conns != []
  {
    if lifo then (conns[|conns| - 1], conns[..|conns| - 1])
    else (conns[0], conns[1..])
  }

  // ---- AcquireConn, first section

  datatype Grant = Got(c: ConnId) | Reserved | Refused | BadStrategy

  function AcquireSection(p: Pool, connectionClose: bool): (Pool, Grant, bool) {
    if p.conns == [] then
      if p.connsCount < Cap(p) then
        var start := !p.cleanerRun && !connectionClose;
        (p.(connsCount := p.connsCount + 1, cleanerRun := p.cleanerRun || start), Reserved, start)
      else (p, Refused, false)
    else if p.strategy.Unsupported? then (p, BadStrategy, false)
    else
      var (c, rest) := PopIdle(p.conns, p.strategy.LIFO?);
      (p.(conns := rest), Got(c), false)
  }

  // ---- queueForIdle

  function ClearFront(wants: map<WantId, Want>, queue: seq<WantId>): seq<WantId> {
    if queue == [] || Waiting(wants, queue[0]) then queue
    else ClearFront(wants, queue[1..])
  }

  function QueueSection(p: Pool, w: WantId, connectionClose: bool): (Pool, Grant, bool) {
    if p.conns != [] || p.connsCount < Cap(p) then AcquireSection(p, connectionClose)
    else (p.(queue := ClearFront(p.wants, p.queue) + [w]), Refused, false)
  }

  // ---- serveWaiterLocked, decConnsCount, SetMaxConns

  /** Pops up to and including the first request still waiting. */
  function ServeWaiter(wants: map<WantId, Want>, queue: seq<WantId>): (seq<WantId>, Option<WantId>) {
    if queue == [] then ([], None)
    else if Waiting(wants, queue[0]) then (queue[1..], Some(queue[0]))
    else ServeWaiter(wants, queue[1..])
  }

  /** Some(w) means that a goroutine was started to dial for w. */
  function DecSection(p: Pool): (Pool, Option<WantId>) {
    if !p.waitEnabled || p.connsCount > Cap(p) then (p.(connsCount := p.connsCount - 1), None)
    else
      var (q, w) := ServeWaiter(p.wants, p.queue);
      (p.(queue := q, connsCount := if w.Some? then p.connsCount else p.connsCount - 1), w)
  }

  /** Hands out slots while the cap allows it; the result lists the waiters that
      get a dialing goroutine. */
  function GrowSection(p: Pool): (Pool, seq<WantId>)
    decreases |p.queue|
  {
    if p.connsCount >= Cap(p) then (p, [])
    else
      var (q, w) := ServeWaiter(p.wants, p.queue);
      ServeWaiterShrinks(p.wants, p.queue);
      if w.None? then (p.(queue := q), [])
      else
        var (p1, ws) := GrowSection(p.(queue := q, connsCount := p.connsCount + 1));
        (p1, [w.value] + ws)
  }

  function SetMaxSection(p: Pool, newMaxConns: int): (Pool, seq<WantId>) {
    GrowSection(p.(maxConns := newMaxConns))
  }

  // ---- releaseConn

  /** The delivery loop of releaseConn. A wantConn in `lost` is cancelled by its
      owner between the waiting test and tryDeliver, which does not need
      connsLock. Some(w) means that w took the connection. */
  function Offer(wants: map<WantId, Want>, queue: seq<WantId>, c: ConnId, lost: set<WantId>)
    : (map<WantId, Want>, seq<WantId>, Option<WantId>)
    decreases queue
  {
    if queue == [] then (wants, [], None)
    else
      var w := queue[0];
      if !Waiting(wants, w) then Offer(wants, queue[1..], c, lost)
      else if w in lost then Offer(wants[w := Cancel(wants[w])], queue[1..], c, lost)
      else (wants[w := Deliver(wants[w], Conn(c))], queue[1..], Some(w))
  }

  function ReleaseSection(p: Pool, c: ConnId, lost: set<WantId>): (Pool, Option<WantId>, bool) {
    var (wants, q, taken) :=
      if p.waitEnabled then Offer(p.wants, p.queue, c, lost) else (p.wants, p.queue, None);
    var conns := if taken.Some? then p.conns else p.conns + [c];
    var start := conns != [] && !p.cleanerRun;
    (p.(wants := wants, queue := q, conns := conns, cleanerRun := p.cleanerRun || start), taken, start)
  }

  // ---- CloseIdleConnections and connsCleaner

  function CloseIdleSection(p: Pool): (Pool, seq<ConnId>) {
    (p.(conns := []), p.conns)
  }

  /** Nanoseconds, as time.Duration has them. */
  const DefaultMaxIdle: int := 10_000_000_000

  function MaxIdle(configured: int): (d: int)
    ensures d > 0
  {
    if configured <= 0 then DefaultMaxIdle else configured
  }

  function ScanSection(p: Pool, k: nat): (Pool, seq<ConnId>)
    requires k <= |p.conns|
  {
    (p.(conns := p.conns[k..]), p.conns[..k])
  }

  function StopSection(p: Pool): (Pool, bool) {
    (if p.connsCount == 0 then p.(cleanerRun := false) else p, p.connsCount == 0)
  }

  // ---- facts about the loops

  lemma {:induction false} ServeWaiterShrinks(wants: map<WantId, Want>, queue: seq<WantId>)
    ensures var (q, w) := ServeWaiter(wants, queue);
      && |q| <= |queue| && q == queue[|queue| - |q|..]
      && (w.Some? ==> |q| < |queue| && w.value == queue[|queue| - |q| - 1] && Waiting(wants, w.value))
      && (w.None? ==> q == [])
      && forall i :: 0 <= i < |queue| - |q| - (if w.Some? then 1 else 0) ==> !Waiting(wants, queue[i])
  {
    if queue != [] && !Waiting(wants, queue[0]) {
      ServeWaiterShrinks(wants, queue[1..]);
      var (q, w) := ServeWaiter(wants, queue);
      assert queue[1..][|queue| - 1 - |q|..] == queue[|queue| - |q|..];
      forall i | 0 <= i < |queue| - |q| - (if w.Some? then 1 else 0)
        ensures !Waiting(wants, queue[i])
      {
        if i > 0 { assert queue[i] == queue[1..][i - 1]; }
      }
    }
  }

  lemma {:induction false} ClearFrontShrinks(wants: map<WantId, Want>, queue: seq<WantId>)
    ensures var q := ClearFront(wants, queue);
      && |q| <= |queue| && q == queue[|queue| - |q|..]
      && (forall i :: 0 <= i < |queue| - |q| ==> !Waiting(wants, queue[i]))
      && (q != [] ==> Waiting(wants, q[0]))
  {
    if queue != [] && !Waiting(wants, queue[0]) {
      ClearFrontShrinks(wants, queue[1..]);
      var q := ClearFront(wants, queue);
      assert queue[1..][|queue| - 1 - |q|..] == queue[|queue| - |q|..];
      forall i | 0 <= i < |queue| - |q|
        ensures !Waiting(wants, queue[i])
      {
        if i > 0 { assert queue[i] == queue[1..][i - 1]; }
      }
    }
  }

  function CancelAll(wants: map<WantId, Want>, lost: set<WantId>): map<WantId, Want> {
    map w | w in wants :: if w in lost then Cancel(wants[w]) else wants[w]
  }

  /** What the delivery loop does, whatever cancellations race with it: it drops
      requests that no longer wait, gives the connection to the first one that
      does, and otherwise leaves an empty queue. */
  lemma {:induction false} OfferEffect(wants: map<WantId, Want>, queue: seq<WantId>, c: ConnId, lost: set<WantId>)
    requires forall w :: w in wants ==> wants[w].Valid()
    requires Distinct(queue)
    ensures var (wants1, q, taken) := Offer(wants, queue, c, lost);
      && |q| <= |queue| && q == queue[|queue| - |q|..]
      && wants1.Keys == wants.Keys
      && (forall w :: w in wants1 ==> wants1[w].Valid())
      && (taken.None? ==> q == [])
      && (taken.Some? ==> |q| < |queue| && taken.value == queue[|queue| - |q| - 1]
                          && taken.value in wants && !wants[taken.value].Resolved()
                          && wants1[taken.value] == Deliver(wants[taken.value], Conn(c)))
      && (forall w :: w in wants && taken != Some(w) ==>
            wants1[w] == wants[w] ||
            (w in lost && w in queue && w !in q && !wants[w].Resolved() && wants1[w] == Cancel(wants[w])))
      && (forall i :: 0 <= i < |queue| - |q| - (if taken.Some? then 1 else 0) && queue[i] in wants1 ==>
            wants1[queue[i]].Resolved())
      && (forall w :: w in q && w in wants ==> wants1[w] == wants[w])
    decreases queue
  {
    if queue != [] {
      var w0 := queue[0];
      var wants0 := if !Waiting(wants, w0) then wants else if w0 in lost then wants[w0 := Cancel(wants[w0])] else wants;
      if !Waiting(wants, w0) || w0 in lost {
        OfferEffect(wants0, queue[1..], c, lost);
        var (wants1, q, taken) := Offer(wants, queue, c, lost);
        assert queue[1..][|queue| - 1 - |q|..] == queue[|queue| - |q|..];
        assert w0 !in queue[1..];
        forall i | 0 <= i < |queue| - |q| - (if taken.Some? then 1 else 0) && queue[i] in wants1
          ensures wants1[queue[i]].Resolved()
        {
          if i > 0 { assert queue[i] == queue[1..][i - 1]; }
        }
      }
    }
  }

  /** A cancellation that slips in between the waiting test and tryDeliver cannot be
      told from one that ran before the section: the section is atomic. */
  lemma {:induction false} RacingCancelCommutes(
      wants: map<WantId, Want>, queue: seq<WantId>, c: ConnId, lost: set<WantId>)
    requires forall w :: w in wants ==> wants[w].Valid()
    requires Distinct(queue)
    ensures var (wants1, q, taken) := Offer(wants, queue, c, lost);
      var (wants2, q2, taken2) := Offer(CancelAll(wants, lost), queue, c, {});
      q == q2 && taken == taken2 && CancelAll(wants1, lost) == wants2
    decreases queue
  {
    if queue != [] {
      var w := queue[0];
      if !Waiting(wants, w) {
        RacingCancelCommutes(wants, queue[1..], c, lost);
      } else if w in lost {
        var wants' := wants[w := Cancel(wants[w])];
        RacingCancelCommutes(wants', queue[1..], c, lost);
        assert CancelAll(wants', lost) == CancelAll(wants, lost);
      } else {
        var wants' := wants[w := Deliver(wants[w], Conn(c))];
        assert CancelAll(wants', lost) == CancelAll(wants, lost)[w := wants'[w]];
      }
    }
  }
}
