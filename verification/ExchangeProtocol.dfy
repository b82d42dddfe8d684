/** Requests over the pool: each leases a connection, runs RoundTrip on it, and perhaps leaves a
    stream that gives it back later (fasthttp/client.go:1848-2229, 3479-3663). The steps of the
    pool's goroutines, of all Reads and of all closes interleave. */
module ExchangeProtocol {
  import opened Common
  import opened WantConns
  import H = HostPool
  import P = PoolProtocol
  import I = PoolInvariants
  import B = StreamBody

  type TaskId = P.TaskId

  /** A stream over the connection c, and what RoundTrip knew when it left it. */
  datatype Stream = Stream(c: ConnId, exchange: B.Exchange, body: B.Body)

  datatype World = World(pool: P.World, streams: map<TaskId, Stream>)

  datatype Step =
    | InPool(p: P.Step)
    | Finish(t: TaskId, exchange: B.Exchange, skip: bool, empty: bool)   // RoundTrip is over
    | InStream(t: TaskId, b: B.Step, closes: bool)

  /** The pool by itself never gives a leased connection back. */
  predicate Own(step: P.Step) { !step.GiveBack? && !step.Discard? }

  function HandBack(p: P.World, t: TaskId, how: B.HandBack): P.World {
    P.Next(p, if how.Release? then P.GiveBack(t) else P.Discard(t))
  }

  predicate Leases(p: P.World, t: TaskId) { t in p.tasks && p.tasks[t].Leased? }

  function Next(s: World, step: Step): World {
    match step
    case InPool(p) => if Own(p) then s.(pool := P.Next(s.pool, p)) else s
    case Finish(t, x, skip, empty) =>
      if !Leases(s.pool, t) || t in s.streams || !x.acquired then s else FinishStep(s, t, x, skip, empty)
    case InStream(t, b, closes) => if t in s.streams then StreamStep(s, t, b, closes) else s
  }

  function FinishStep(s: World, t: TaskId, x: B.Exchange, skip: bool, empty: bool): World
    requires Leases(s.pool, t)
  {
    var trip := B.RoundTrip(x, skip);
    if trip.stream then s.(streams := s.streams[t := Stream(s.pool.tasks[t].c, x, B.Initial(empty))])
    else if trip.handed == [] then s
    else s.(pool := HandBack(s.pool, t, trip.handed[0]))
  }

  /** A call of release gives the connection back. */
  function StreamStep(s: World, t: TaskId, b: B.Step, closes: bool): World
    requires t in s.streams
  {
    var st := s.streams[t];
    var body := B.Next(st.body, b);
    var s1 := s.(streams := s.streams[t := st.(body := body)]);
    if |body.released| <= |st.body.released| then s1
    else
      var close := st.exchange.mustClose || body.released[|body.released| - 1] || closes;
      s1.(pool := HandBack(s.pool, t, if close then B.Close else B.Release))
  }

  function Run(s: World, steps: seq<Step>): World {
    if steps == [] then s else Next(Run(s, steps[..|steps| - 1]), steps[|steps| - 1])
  }

  function Initial(p: P.World): World { World(p, map[]) }

  // ---- what the pool does to a goroutine that is not its own turn

  /** Goroutines other than `who` that exist already are as they were. */
  ghost predicate OthersStay(p: P.World, p1: P.World, who: Option<TaskId>) {
    && p.nextTask <= p1.nextTask
    && forall u :: u < p.nextTask && Some(u) != who ==>
         (u in p1.tasks <==> u in p.tasks) && (u in p.tasks ==> p1.tasks[u] == p.tasks[u])
  }

  lemma StayTrans(p: P.World, p1: P.World, p2: P.World, who: Option<TaskId>)
    requires OthersStay(p, p1, who) && OthersStay(p1, p2, None)
    ensures OthersStay(p, p2, who)
  {
  }

  lemma {:induction false} GrowStays(p: P.World)
    ensures OthersStay(p, P.Grow(p), None)
    decreases |p.pool.queue|
  {
    hide P.Dropped;
    if p.pool.connsCount < H.Cap(p.pool) {
      var (q, w) := H.ServeWaiter(p.pool.wants, p.pool.queue);
      H.ServeWaiterShrinks(p.pool.wants, p.pool.queue);
      if w.Some? {
        var p1 := I.Grown(p, q, w.value);
        GrowStays(p1);
        StayTrans(p, p1, P.Grow(p1), None);
      }
    }
  }

  lemma FreeStays(p: P.World)
    ensures OthersStay(p, P.FreeSlot(p), None)
  {
    hide P.Dropped, H.DecSection;
  }

  lemma DecStays(p: P.World, t: TaskId)
    requires t in p.tasks
    ensures OthersStay(p, P.DecStep(p, t), Some(t))
  {
    hide P.FreeSlot, OthersStay;
    match p.tasks[t]
    case Retiring =>
      var p1 := P.End(p, t);
      ChangeStays(p, p1, t);
      FreeStays(p1);
      StayTrans(p, p1, P.FreeSlot(p1), Some(t));
    case Closing(cs) =>
      if cs == [] {
        SameStays(p, Some(t));
      } else {
        var p0 := p.(owner := p.owner - {cs[0]});
        var p1 := if |cs| == 1 then P.End(p0, t) else P.Put(p0, t, P.Closing(cs[1..]));
        ChangeStays(p, p1, t);
        FreeStays(p1);
        StayTrans(p, p1, P.FreeSlot(p1), Some(t));
      }
    case Cleaner(ClosingIdle(cs)) =>
      if cs == [] {
        SameStays(p, Some(t));
      } else {
        var p1 := P.Put(p.(owner := p.owner - {cs[0]}), t,
                        P.Cleaner(if |cs| == 1 then P.Checking else P.ClosingIdle(cs[1..])));
        ChangeStays(p, p1, t);
        FreeStays(p1);
        StayTrans(p, p1, P.FreeSlot(p1), Some(t));
      }
    case _ => SameStays(p, Some(t));
  }

  lemma SameStays(p: P.World, who: Option<TaskId>)
    ensures OthersStay(p, p, who)
  {
  }

  /** Only the goroutine t has changed. */
  lemma ChangeStays(p: P.World, p1: P.World, t: TaskId)
    requires p1.nextTask == p.nextTask && t in p.tasks
    requires p1.tasks == p.tasks - {t} || (t in p1.tasks && p1.tasks == p.tasks[t := p1.tasks[t]])
    ensures OthersStay(p, p1, Some(t))
  {
  }

  lemma AcquireStays(p: P.World, t: TaskId)
    requires t in p.tasks
    ensures p.tasks[t].Acquiring? ==> OthersStay(p, P.AcquireStep(p, t), Some(t))
    ensures p.tasks[t].Queueing? ==> OthersStay(p, P.QueueStep(p, t), Some(t))
  {
    hide H.AcquireSection, H.QueueSection, P.Dropped;
  }

  lemma WaitStays(p: P.World, t: TaskId)
    requires t in p.tasks
    ensures p.tasks[t].Handing? ==> OthersStay(p, P.HandOverStep(p, t), Some(t))
    ensures p.tasks[t].Awaiting? ==> OthersStay(p, P.TakeStep(p, t), Some(t))
    ensures p.tasks[t].Cancelling? ==> OthersStay(p, P.CancelStep(p, t), Some(t))
    ensures OthersStay(p, P.DialOkStep(p, t), Some(t)) && OthersStay(p, P.DialFailStep(p, t), Some(t))
    ensures p.tasks[t].DeliveringTo? ==> OthersStay(p, P.DeliverStep(p, t), Some(t))
  {
  }

  lemma ReleaseStays(p: P.World, t: TaskId, k: nat)
    requires t in p.tasks
    ensures p.tasks[t].Releasing? ==> OthersStay(p, P.ReleaseStep(p, t), Some(t))
    ensures k <= |p.pool.conns| ==> OthersStay(p, P.ScanStep(p, t, k), Some(t))
    ensures OthersStay(p, P.StopStep(p, t), Some(t))
  {
    hide H.ReleaseSection, H.ScanSection, H.StopSection, P.Dropped, P.Grip;
  }

  /** The goroutine whose turn it is. */
  function Actor(step: P.Step): Option<TaskId> {
    match step
    case Enter(_) => None
    case SetMaxConns(_) => None
    case CloseIdle => None
    case _ => Some(step.t)
  }

  lemma PoolStays(p: P.World, step: P.Step)
    ensures OthersStay(p, P.Next(p, step), Actor(step))
  {
    SameStays(p, Actor(step));
    SpawnStays(p);
    hide OthersStay, P.AcquireStep, P.QueueStep, P.HandOverStep, P.TakeStep, P.CancelStep, P.DialOkStep, P.DialFailStep,
         P.DeliverStep, P.ReleaseStep, P.DecStep, P.Grow, P.ScanStep, P.StopStep;
    match step
    case Enter(_) =>
    case CloseIdle =>
    case SetMaxConns(n) => CapStays(p, n);
    case Timeout(t) => if t in p.tasks && p.tasks[t].Awaiting? { ChangeStays(p, P.Next(p, step), t); }
    case GiveBack(t) => if t in p.tasks && p.tasks[t].Leased? { ChangeStays(p, P.Next(p, step), t); }
    case Discard(t) => if t in p.tasks && p.tasks[t].Leased? { ChangeStays(p, P.Next(p, step), t); }
    case Dec(t) => if t in p.tasks { DecStays(p, t); }
    case Scan(t, k) => if t in p.tasks { ReleaseStays(p, t, k); }
    case _ => if step.t in p.tasks { AcquireStays(p, step.t); WaitStays(p, step.t); ReleaseStays(p, step.t, 0); }
  }

  lemma SpawnStays(p: P.World)
    ensures forall c :: OthersStay(p, P.Spawn(p, P.Acquiring(c)), None)
    ensures OthersStay(p, P.Next(p, P.CloseIdle), None)
  {
    hide H.CloseIdleSection, P.Grip;
  }

  lemma CapStays(p: P.World, n: int)
    ensures OthersStay(p, P.Next(p, P.SetMaxConns(n)), None)
  {
    hide P.Grow;
    var p1 := p.(pool := p.pool.(maxConns := n));
    GrowStays(p1);
  }

  /** A leased connection stays leased, and a goroutine that is giving one back does nothing
      else any more. */
  predicate GoneBy(p: P.World, t: TaskId) {
    t < p.nextTask && (t in p.tasks ==> p.tasks[t].Releasing? || p.tasks[t].Closing?)
  }

  lemma LeaseStays(p: P.World, step: P.Step, t: TaskId)
    requires Own(step) && Leases(p, t) && t < p.nextTask
    ensures t in P.Next(p, step).tasks && P.Next(p, step).tasks[t] == p.tasks[t] && t < P.Next(p, step).nextTask
  {
    hide P.Next;
    PoolStays(p, step);
    if Actor(step) == Some(t) { NotItsTurn(p, step, t); }
  }

  /** A goroutine that leases a connection has no section of its own to run. */
  lemma NotItsTurn(p: P.World, step: P.Step, t: TaskId)
    requires Own(step) && Leases(p, t) && Actor(step) == Some(t)
    ensures P.Next(p, step) == p
  {
    hide P.AcquireStep, P.QueueStep, P.HandOverStep, P.TakeStep, P.CancelStep, P.DeliverStep, P.ReleaseStep, P.FreeSlot,
         P.Grow, P.ScanStep, P.StopStep;
  }

  lemma GoneStays(p: P.World, step: P.Step, t: TaskId)
    requires GoneBy(p, t)
    ensures GoneBy(P.Next(p, step), t)
  {
    hide P.Next;
    PoolStays(p, step);
    if Actor(step) == Some(t) { GoneTurn(p, step, t); }
  }

  lemma GoneTurn(p: P.World, step: P.Step, t: TaskId)
    requires GoneBy(p, t) && Actor(step) == Some(t)
    ensures GoneBy(P.Next(p, step), t)
  {
    hide P.AcquireStep, P.QueueStep, P.HandOverStep, P.TakeStep, P.CancelStep, P.DeliverStep, P.Grow, P.ScanStep,
         P.StopStep,
         P.FreeSlot, H.ReleaseSection, P.Dropped;
    if step.Dec? && t in p.tasks && p.tasks[t].Closing? && p.tasks[t].cs != [] {
      var cs := p.tasks[t].cs;
      var p0 := p.(owner := p.owner - {cs[0]});
      FreeStays(if |cs| == 1 then P.End(p0, t) else P.Put(p0, t, P.Closing(cs[1..])));
    }
  }

  // ---- what every step keeps

  /** Until its stream calls release a request leases the connection; afterwards it never does. */
  ghost predicate StreamOk(p: P.World, t: TaskId, st: Stream) {
    && B.Inv(st.body) && t < p.nextTask
    && (if st.body.released == [] then t in p.tasks && p.tasks[t] == P.Leased(st.c) else GoneBy(p, t))
  }

  ghost predicate Inv(s: World) {
    I.Inv(s.pool) && forall t :: t in s.streams ==> StreamOk(s.pool, t, s.streams[t])
  }

  lemma OneStream(s: World, t: TaskId)
    requires Inv(s) && t in s.streams
    ensures StreamOk(s.pool, t, s.streams[t])
  {
  }

  lemma TasksBelow(p: P.World, t: TaskId)
    requires I.Inv(p) && t in p.tasks
    ensures t < p.nextTask
  {
  }

  lemma PoolKeeps(s: World, step: P.Step)
    requires Inv(s) && Own(step)
    ensures Inv(s.(pool := P.Next(s.pool, step)))
  {
    hide I.Inv, P.Next, B.Inv;
    I.StepKeeps(s.pool, step);
    forall t | t in s.streams ensures StreamOk(P.Next(s.pool, step), t, s.streams[t]) {
      OneStream(s, t);
      if s.streams[t].body.released == [] { LeaseStays(s.pool, step, t); } else { GoneStays(s.pool, step, t); }
    }
  }

  /** Giving back leaves the other requests alone. */
  lemma OtherStreams(s: World, t: TaskId, how: B.HandBack, u: TaskId)
    requires Inv(s) && u in s.streams && u != t
    ensures StreamOk(HandBack(s.pool, t, how), u, s.streams[u])
  {
    OneStream(s, u);
    hide I.Inv, P.Next, B.Inv;
    PoolStays(s.pool, if how.Release? then P.GiveBack(t) else P.Discard(t));
  }

  lemma HandsBack(p: P.World, t: TaskId, how: B.HandBack)
    requires I.Inv(p) && Leases(p, t)
    ensures I.Inv(HandBack(p, t, how)) && GoneBy(HandBack(p, t, how), t)
    ensures t in HandBack(p, t, how).tasks && P.Held(HandBack(p, t, how).tasks[t]) == [p.tasks[t].c]
  {
    TasksBelow(p, t);
    hide I.Inv;
    I.StepKeeps(p, if how.Release? then P.GiveBack(t) else P.Discard(t));
  }

  lemma FinishKeeps(s: World, t: TaskId, x: B.Exchange, skip: bool, empty: bool)
    requires Inv(s) && Leases(s.pool, t) && t !in s.streams
    ensures Inv(FinishStep(s, t, x, skip, empty))
  {
    TasksBelow(s.pool, t);
    hide I.Inv, HandBack, B.RoundTrip;
    var trip := B.RoundTrip(x, skip);
    if !trip.stream && trip.handed != [] {
      HandsBack(s.pool, t, trip.handed[0]);
      forall u | u in s.streams ensures StreamOk(HandBack(s.pool, t, trip.handed[0]), u, s.streams[u]) {
        OtherStreams(s, t, trip.handed[0], u);
      }
    }
  }

  lemma StreamKeeps(s: World, t: TaskId, b: B.Step, closes: bool)
    requires Inv(s) && t in s.streams
    ensures Inv(StreamStep(s, t, b, closes))
  {
    hide I.Inv, HandBack, B.Inv, B.Next;
    OneStream(s, t);
    B.StepKeeps(s.streams[t].body, b);
    OnceReleased(s.streams[t].body, b);
    var st := s.streams[t];
    var body, s1 := B.Next(st.body, b), StreamStep(s, t, b, closes);
    if |body.released| > |st.body.released| {
      var close := st.exchange.mustClose || body.released[|body.released| - 1] || closes;
      var how := if close then B.Close else B.Release;
      HandsBack(s.pool, t, how);
      forall u | u in s1.streams ensures StreamOk(s1.pool, u, s1.streams[u]) {
        if u != t { OtherStreams(s, t, how, u); }
      }
    } else {
      forall u | u in s1.streams ensures StreamOk(s1.pool, u, s1.streams[u]) { if u != t { OneStream(s, u); } }
    }
  }

  /** release is called with nothing released before, or not at all. */
  lemma OnceReleased(body: B.Body, b: B.Step)
    requires B.Inv(body) && B.Inv(B.Next(body, b))
    ensures |B.Next(body, b).released| <= 1
    ensures |B.Next(body, b).released| > |body.released| ==> body.released == [] && B.Next(body, b).released != []
    ensures |B.Next(body, b).released| <= |body.released| ==> B.Next(body, b).released == body.released
  {
  }

  lemma StepKeeps(s: World, step: Step)
    requires Inv(s)
    ensures Inv(Next(s, step))
  {
    hide Inv, P.Next, FinishStep, StreamStep;
    match step
    case InPool(p) => if Own(p) { PoolKeeps(s, p); }
    case Finish(t, x, skip, empty) => if Leases(s.pool, t) && t !in s.streams { FinishKeeps(s, t, x, skip, empty); }
    case InStream(t, b, closes) => if t in s.streams { StreamKeeps(s, t, b, closes); }
  }

  lemma {:induction false} RunKeeps(maxConns: int, waitEnabled: bool, strategy: H.Strategy, steps: seq<Step>)
    ensures Inv(Run(Initial(P.Initial(maxConns, waitEnabled, strategy)), steps))
  {
    hide I.Inv, Next;
    if steps == [] {
      I.RunKeeps(maxConns, waitEnabled, strategy, []);
    } else {
      hide Inv;
      RunKeeps(maxConns, waitEnabled, strategy, steps[..|steps| - 1]);
      StepKeeps(Run(Initial(P.Initial(maxConns, waitEnabled, strategy)), steps[..|steps| - 1]), steps[|steps| - 1]);
    }
  }

  // ---- what follows

  ghost predicate Reachable(s: World) {
    exists maxConns, waitEnabled, strategy, steps ::
      s == Run(Initial(P.Initial(maxConns, waitEnabled, strategy)), steps)
  }

  lemma ReachableInv(s: World)
    requires Reachable(s)
    ensures Inv(s)
  {
    hide Inv, Run;
    var maxConns, waitEnabled, strategy, steps :| s == Run(Initial(P.Initial(maxConns, waitEnabled, strategy)), steps);
    RunKeeps(maxConns, waitEnabled, strategy, steps);
  }

  /** Nobody else has the connection: it is neither idle, nor delivered, nor in another hand. */
  ghost predicate Exclusive(p: P.World, t: TaskId, c: ConnId) {
    && t in p.tasks && P.Held(p.tasks[t]) == [c] && c !in p.pool.conns
    && (forall u :: u in p.tasks && u != t ==> c !in P.Held(p.tasks[u]))
    && (forall w :: w in p.pool.wants ==> p.pool.wants[w].conn != Some(c))
  }

  lemma HeldIsExclusive(p: P.World, t: TaskId, c: ConnId)
    requires I.Places(p) && t in p.tasks && P.Held(p.tasks[t]) == [c]
    ensures Exclusive(p, t, c)
  {
    assert I.Holds(p.tasks, t, c);
    assert I.At(p.owner, c, P.Hand(t));
    assert c in p.pool.conns <==> I.At(p.owner, c, P.Idle);
    forall u | u in p.tasks && u != t ensures c !in P.Held(p.tasks[u]) {
      assert I.Holds(p.tasks, u, c) <==> I.At(p.owner, c, P.Hand(u));
    }
    forall w | w in p.pool.wants ensures p.pool.wants[w].conn != Some(c) {
      assert I.Carries(p.pool.wants, w, c) <==> I.At(p.owner, c, P.Delivered(w));
    }
  }

  /** In every interleaving, while a Read is in flight its connection is the request's alone: it
      has not been given back, and no other request, waiter or cleaner can have it. */
  lemma ReadHasTheConnection(s: World, t: TaskId, r: B.Id)
    requires Reachable(s) && t in s.streams && r in s.streams[t].body.calls && s.streams[t].body.calls[r].InRead?
    ensures s.streams[t].body.released == [] && Exclusive(s.pool, t, s.streams[t].c)
  {
    ReachableInv(s);
    OneStream(s, t);
    InReadUnreleased(s.streams[t].body, r);
    HeldIsExclusive(s.pool, t, s.streams[t].c);
  }

  lemma InReadUnreleased(body: B.Body, r: B.Id)
    requires B.Inv(body) && r in body.calls && body.calls[r].InRead?
    ensures body.released == []
  {
  }

  /** In every interleaving, the step that gives a streamed connection back finds it still leased
      to its request, and that request never leases or gives back a connection again. */
  lemma GivesBackItsOwn(s: World, t: TaskId, b: B.Step, closes: bool)
    requires Reachable(s) && t in s.streams
    ensures var st, s1 := s.streams[t], StreamStep(s, t, b, closes);
      |s1.streams[t].body.released| > |st.body.released| ==>
        && st.body.released == [] && t in s.pool.tasks && s.pool.tasks[t] == P.Leased(st.c)
        && Exclusive(s1.pool, t, st.c) && GoneBy(s1.pool, t)
  {
    ReachableInv(s);
    OneStream(s, t);
    var st, s1 := s.streams[t], StreamStep(s, t, b, closes);
    B.StepKeeps(st.body, b);
    OnceReleased(st.body, b);
    hide I.Inv, HandBack, B.Inv, B.Next;
    if |s1.streams[t].body.released| > |st.body.released| {
      var released := s1.streams[t].body.released;
      var close := st.exchange.mustClose || released[|released| - 1] || closes;
      HandsBack(s.pool, t, if close then B.Close else B.Release);
      InvPlaces(s1.pool);
      HeldIsExclusive(s1.pool, t, st.c);
    }
  }

  lemma InvPlaces(p: P.World)
    requires I.Inv(p)
    ensures I.Places(p)
  {
  }

  /** In every interleaving, a request whose stream has been closed has given its connection back. */
  lemma ClosedHasGivenBack(s: World, t: TaskId)
    requires Reachable(s) && t in s.streams && s.streams[t].body.once.Finished?
    ensures |s.streams[t].body.released| == 1 && !Leases(s.pool, t)
  {
    ReachableInv(s);
    OneStream(s, t);
  }

  /** A connection that is given to the pool is about to be released there, one that is closed is about to
      be closed, and either is gone from its request. */
  lemma HandsBackAs(s: World, t: TaskId, how: B.HandBack)
    requires Leases(s.pool, t)
    ensures var p := HandBack(s.pool, t, how);
      && p.pool == s.pool.pool
      && var c := s.pool.tasks[t].c;
      p.tasks == s.pool.tasks[t := if how == B.Release then P.Releasing(c) else P.Closing([c])]
  {
  }

  /** The end of RoundTrip hands the connection over as RoundTrip says, or leaves it to a new stream; a
      stream's release does so as its argument and the Response say. */
  lemma FinishHands(s: World, t: TaskId, x: B.Exchange, skip: bool, empty: bool)
    requires Leases(s.pool, t) && t !in s.streams && x.acquired
    ensures var trip, s1 := B.RoundTrip(x, skip), Next(s, Finish(t, x, skip, empty));
      && (trip.stream ==>
            s1.pool == s.pool && s1.streams == s.streams[t := Stream(s.pool.tasks[t].c, x, B.Initial(empty))])
      && (!trip.stream && trip.handed != [] ==>
            s1.streams == s.streams && s1.pool == HandBack(s.pool, t, trip.handed[0]))
  {
    hide HandBack;
  }

  lemma ReleaseHands(s: World, t: TaskId, b: B.Step, closes: bool)
    requires t in s.streams
    ensures var st, s1 := s.streams[t], Next(s, InStream(t, b, closes));
      var released := B.Next(st.body, b).released;
      && s1.streams == s.streams[t := st.(body := B.Next(st.body, b))]
      && (|released| <= |st.body.released| ==> s1.pool == s.pool)
      && (|released| > |st.body.released| ==>
            var close := st.exchange.mustClose || released[|released| - 1] || closes;
            s1.pool == HandBack(s.pool, t, if close then B.Close else B.Release))
  {
    hide HandBack, B.Next;
  }

  /** The pool's own goroutines run as they do without requests. */
  lemma PoolRuns(s: World, p: P.Step)
    ensures !p.GiveBack? && !p.Discard? ==> Next(s, InPool(p)) == s.(pool := P.Next(s.pool, p))
    ensures p.GiveBack? || p.Discard? ==> Next(s, InPool(p)) == s
  {
    hide P.Next;
  }
}
