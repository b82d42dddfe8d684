/** Every interleaving of the goroutines that share one HostClient pool
    (fasthttp/client.go:1848-2229, 2521-2563). Each connsLock section and each
    wantConn section is one step; dials and timers have any outcome at any time. */
module PoolProtocol {
  import opened Common
  import opened WantConns
  import opened HostPool

  type TaskId = nat

  datatype Phase = Scanning | ClosingIdle(cs: seq<ConnId>) | Checking

  /** Where a goroutine stands between two sections, and what it holds. */
  datatype Task =
    | Acquiring(connectionClose: bool)             // about to enter AcquireConn
    | Dialing                                      // AcquireConn: slot reserved
    | Queueing(w: WantId, connectionClose: bool)   // about to run queueForIdle
    | Handing(w: WantId, parcel: Parcel)           // queueForIdle: about to run tryDeliver
    | Awaiting(w: WantId)                          // selecting on ready and the timer
    | Cancelling(w: WantId)                        // about to run cancel
    | Leased(c: ConnId)                            // AcquireConn returned c
    | DialingFor(w: WantId)                        // dialConnFor
    | DeliveringTo(w: WantId, parcel: Parcel)      // dialConnFor: about to run tryDeliver
    | Retiring                                     // about to run decConnsCount
    | Releasing(c: ConnId)                         // about to run releaseConn
    | Closing(cs: seq<ConnId>)                     // CloseConn of each
    | Cleaner(phase: Phase)

  /** Who owns a connection. */
  datatype Place = Idle | Hand(t: TaskId) | Delivered(w: WantId)

  /** Who will resolve a wantConn. */
  datatype Server = Nobody | InQueue | By(t: TaskId)

  /** `owner`, `server` and `caller` are bookkeeping that the steps never consult. */
  datatype World = World(
    pool: Pool,
    tasks: map<TaskId, Task>,
    owner: map<ConnId, Place>,
    server: map<WantId, Server>,
    caller: map<WantId, TaskId>,
    nextTask: TaskId,
    nextConn: ConnId,
    nextWant: WantId)

  /** The connections in a goroutine's hand. */
  function Held(x: Task): seq<ConnId> {
    match x
    case Handing(_, Conn(c)) => [c]
    case Leased(c) => [c]
    case DeliveringTo(_, Conn(c)) => [c]
    case Releasing(c) => [c]
    case Closing(cs) => cs
    case Cleaner(ClosingIdle(cs)) => cs
    case _ => []
  }

  /** The goroutine holds a slot that has no connection. */
  predicate Bare(x: Task) {
    x.Dialing? || x.DialingFor? || x.Retiring? || (x.DeliveringTo? && x.parcel.Failure?)
  }

  /** The request whose wantConn the goroutine will resolve. */
  function Serves(x: Task): Option<WantId> {
    match x
    case Queueing(w, _) => Some(w)
    case Handing(w, _) => Some(w)
    case DialingFor(w) => Some(w)
    case DeliveringTo(w, _) => Some(w)
    case _ => None
  }

  /** The goroutine is the request that waits on w. */
  function Calls(x: Task): Option<WantId> {
    match x
    case Queueing(w, _) => Some(w)
    case Handing(w, _) => Some(w)
    case Awaiting(w) => Some(w)
    case Cancelling(w) => Some(w)
    case _ => None
  }

  // ---- steps

  datatype Step =
    | Enter(connectionClose: bool)
    | Acquire(t: TaskId)
    | Queue(t: TaskId)
    | HandOver(t: TaskId)
    | Take(t: TaskId)
    | Timeout(t: TaskId)
    | CancelWait(t: TaskId)
    | DialOk(t: TaskId)
    | DialFail(t: TaskId)
    | DeliverTo(t: TaskId)
    | GiveBack(t: TaskId)
    | Discard(t: TaskId)
    | Release(t: TaskId)
    | Dec(t: TaskId)
    | SetMaxConns(n: int)
    | CloseIdle
    | Scan(t: TaskId, k: nat)
    | Stop(t: TaskId)

  function Put(s: World, t: TaskId, x: Task): World { s.(tasks := s.tasks[t := x]) }

  function End(s: World, t: TaskId): World { s.(tasks := s.tasks - {t}) }

  function Spawn(s: World, x: Task): World {
    s.(tasks := s.tasks[s.nextTask := x], nextTask := s.nextTask + 1)
  }

  function SpawnCleaner(s: World, start: bool): World {
    if start then Spawn(s, Cleaner(Scanning)) else s
  }

  function SpawnDial(s: World, w: WantId): World {
    Spawn(s, DialingFor(w)).(server := s.server[w := By(s.nextTask)])
  }

  /** Requests dropped from the queue have nobody serving them. */
  function Dropped(server: map<WantId, Server>, queue: seq<WantId>): map<WantId, Server> {
    map w | w in server :: if server[w].InQueue? && w !in queue then Nobody else server[w]
  }

  function Grip(owner: map<ConnId, Place>, cs: seq<ConnId>, p: Place): map<ConnId, Place> {
    map c | c in owner.Keys + (set c | c in cs) :: if c in cs then p else owner[c]
  }

  function Next(s: World, step: Step): World {
    match step
    case Enter(connectionClose) => Spawn(s, Acquiring(connectionClose))
    case Acquire(t) => if t in s.tasks && s.tasks[t].Acquiring? then AcquireStep(s, t) else s
    case Queue(t) => if t in s.tasks && s.tasks[t].Queueing? then QueueStep(s, t) else s
    case HandOver(t) => if t in s.tasks && s.tasks[t].Handing? then HandOverStep(s, t) else s
    case Take(t) => if t in s.tasks && s.tasks[t].Awaiting? then TakeStep(s, t) else s
    case Timeout(t) => if t in s.tasks && s.tasks[t].Awaiting? then Put(s, t, Cancelling(s.tasks[t].w)) else s
    case CancelWait(t) => if t in s.tasks && s.tasks[t].Cancelling? then CancelStep(s, t) else s
    case DialOk(t) => if t in s.tasks then DialOkStep(s, t) else s
    case DialFail(t) => if t in s.tasks then DialFailStep(s, t) else s
    case DeliverTo(t) => if t in s.tasks && s.tasks[t].DeliveringTo? then DeliverStep(s, t) else s
    case GiveBack(t) => if t in s.tasks && s.tasks[t].Leased? then Put(s, t, Releasing(s.tasks[t].c)) else s
    case Discard(t) => if t in s.tasks && s.tasks[t].Leased? then Put(s, t, Closing([s.tasks[t].c])) else s
    case Release(t) => if t in s.tasks && s.tasks[t].Releasing? then ReleaseStep(s, t) else s
    case Dec(t) => if t in s.tasks then DecStep(s, t) else s
    case SetMaxConns(n) => Grow(s.(pool := s.pool.(maxConns := n)))
    case CloseIdle =>
      var (p, cs) := CloseIdleSection(s.pool);
      if cs == [] then s
      else Spawn(s.(pool := p, owner := Grip(s.owner, cs, Hand(s.nextTask))), Closing(cs))
    case Scan(t, k) =>
      if t in s.tasks && s.tasks[t] == Cleaner(Scanning) && k <= |s.pool.conns| then ScanStep(s, t, k) else s
    case Stop(t) => if t in s.tasks && s.tasks[t] == Cleaner(Checking) then StopStep(s, t) else s
  }

  function AcquireStep(s: World, t: TaskId): World
    requires t in s.tasks && s.tasks[t].Acquiring?
  {
    var (p, grant, start) := AcquireSection(s.pool, s.tasks[t].connectionClose);
    match grant
    case Got(c) => Put(s.(pool := p, owner := s.owner[c := Hand(t)]), t, Leased(c))
    case Reserved => SpawnCleaner(Put(s.(pool := p), t, Dialing), start)
    case BadStrategy => End(s, t)
    case Refused =>
      if !p.waitEnabled then End(s, t)
      else
        var w := s.nextWant;
        Put(s.(pool := p.(wants := p.wants[w := FreshWant]), server := s.server[w := By(t)],
               caller := s.caller[w := t], nextWant := w + 1),
            t, Queueing(w, s.tasks[t].connectionClose))
  }

  function QueueStep(s: World, t: TaskId): World
    requires t in s.tasks && s.tasks[t].Queueing?
  {
    var w := s.tasks[t].w;
    var (p, grant, start) := QueueSection(s.pool, w, s.tasks[t].connectionClose);
    match grant
    case Got(c) => Put(s.(pool := p, owner := s.owner[c := Hand(t)]), t, Handing(w, Conn(c)))
    case BadStrategy => Put(s, t, Handing(w, Failure))
    case Reserved => SpawnCleaner(SpawnDial(Put(s.(pool := p), t, Awaiting(w)), w), start)
    case Refused => Put(s.(pool := p, server := Dropped(s.server, p.queue)[w := InQueue]), t, Awaiting(w))
  }

  /** queueForIdle ignores the result of tryDeliver: a refused connection would be lost. */
  function HandOverStep(s: World, t: TaskId): World
    requires t in s.tasks && s.tasks[t].Handing?
  {
    var w, x := s.tasks[t].w, s.tasks[t].parcel;
    if w !in s.pool.wants then s
    else
      var owner :=
        if x.Failure? then s.owner
        else if s.pool.wants[w].Resolved() then s.owner - {x.c}
        else s.owner[x.c := Delivered(w)];
      Put(s.(pool := s.pool.(wants := s.pool.wants[w := Deliver(s.pool.wants[w], x)]), owner := owner,
             server := s.server[w := Nobody]),
          t, Awaiting(w))
  }

  function TakeStep(s: World, t: TaskId): World
    requires t in s.tasks && s.tasks[t].Awaiting?
  {
    var w := s.tasks[t].w;
    if w !in s.pool.wants || s.pool.wants[w].closes == 0 then s
    else match s.pool.wants[w].conn
      case None => Put(s, t, Cancelling(w))
      case Some(c) =>
        Put(s.(pool := s.pool.(wants := s.pool.wants - {w}), server := s.server - {w}, caller := s.caller - {w},
               owner := s.owner[c := Hand(t)]),
            t, Leased(c))
  }

  function CancelStep(s: World, t: TaskId): World
    requires t in s.tasks && s.tasks[t].Cancelling?
  {
    var w := s.tasks[t].w;
    if w !in s.pool.wants then s
    else
      var s1 := s.(pool := s.pool.(wants := s.pool.wants[w := Cancel(s.pool.wants[w])]));
      match s.pool.wants[w].conn
      case None => End(s1, t)
      case Some(c) => Put(s1.(owner := s.owner[c := Hand(t)]), t, Releasing(c))
  }

  function DialOkStep(s: World, t: TaskId): World
    requires t in s.tasks
  {
    var c := s.nextConn;
    var s1 := s.(owner := s.owner[c := Hand(t)], nextConn := c + 1);
    match s.tasks[t]
    case Dialing => Put(s1, t, Leased(c))
    case DialingFor(w) => Put(s1, t, DeliveringTo(w, Conn(c)))
    case _ => s
  }

  function DialFailStep(s: World, t: TaskId): World
    requires t in s.tasks
  {
    match s.tasks[t]
    case Dialing => Put(s, t, Retiring)
    case DialingFor(w) => Put(s, t, DeliveringTo(w, Failure))
    case _ => s
  }

  function DeliverStep(s: World, t: TaskId): World
    requires t in s.tasks && s.tasks[t].DeliveringTo?
  {
    var w, x := s.tasks[t].w, s.tasks[t].parcel;
    if w !in s.pool.wants then s
    else
      var s1 := s.(pool := s.pool.(wants := s.pool.wants[w := Deliver(s.pool.wants[w], x)]),
                   server := s.server[w := Nobody]);
      match x
      case Failure => Put(s1, t, Retiring)
      case Conn(c) =>
        if s.pool.wants[w].Resolved() then Put(s1, t, Releasing(c))
        else End(s1.(owner := s.owner[c := Delivered(w)]), t)
  }

  function ReleaseStep(s: World, t: TaskId): World
    requires t in s.tasks && s.tasks[t].Releasing?
  {
    var c := s.tasks[t].c;
    var (p, taken, start) := ReleaseSection(s.pool, c, {});
    var place := if taken.Some? then Delivered(taken.value) else Idle;
    SpawnCleaner(End(s.(pool := p, server := Dropped(s.server, p.queue), owner := s.owner[c := place]), t), start)
  }

  /** The goroutine after one decConnsCount, with the connection it gave up removed. */
  function DecStep(s: World, t: TaskId): World
    requires t in s.tasks
  {
    match s.tasks[t]
    case Retiring => FreeSlot(End(s, t))
    case Closing(cs) =>
      if cs == [] then s
      else if |cs| == 1 then FreeSlot(End(s.(owner := s.owner - {cs[0]}), t))
      else FreeSlot(Put(s.(owner := s.owner - {cs[0]}), t, Closing(cs[1..])))
    case Cleaner(ClosingIdle(cs)) =>
      if cs == [] then s
      else FreeSlot(Put(s.(owner := s.owner - {cs[0]}), t,
                        Cleaner(if |cs| == 1 then Checking else ClosingIdle(cs[1..]))))
    case _ => s
  }

  function FreeSlot(s: World): World {
    var (p, w) := DecSection(s.pool);
    var s1 := s.(pool := p, server := Dropped(s.server, p.queue));
    if w.Some? then SpawnDial(s1, w.value) else s1
  }

  function Grow(s: World): World
    decreases |s.pool.queue|
  {
    if s.pool.connsCount >= Cap(s.pool) then s
    else
      var (q, w) := ServeWaiter(s.pool.wants, s.pool.queue);
      ServeWaiterShrinks(s.pool.wants, s.pool.queue);
      var s1 := s.(pool := s.pool.(queue := q), server := Dropped(s.server, q));
      if w.None? then s1
      else Grow(SpawnDial(s1.(pool := s1.pool.(connsCount := s1.pool.connsCount + 1)), w.value))
  }

  function ScanStep(s: World, t: TaskId, k: nat): World
    requires t in s.tasks && k <= |s.pool.conns|
  {
    var (p, cs) := ScanSection(s.pool, k);
    Put(s.(pool := p, owner := Grip(s.owner, cs, Hand(t))), t,
        Cleaner(if k == 0 then Checking else ClosingIdle(cs)))
  }

  function StopStep(s: World, t: TaskId): World
    requires t in s.tasks
  {
    var (p, stop) := StopSection(s.pool);
    if stop then End(s.(pool := p), t) else Put(s, t, Cleaner(Scanning))
  }

  function Run(s: World, steps: seq<Step>): World {
    if steps == [] then s else Next(Run(s, steps[..|steps| - 1]), steps[|steps| - 1])
  }

  function Initial(maxConns: int, waitEnabled: bool, strategy: Strategy): World {
    World(Pool([], 0, maxConns, [], map[], false, waitEnabled, strategy), map[], map[], map[], map[], 0, 0, 0)
  }
}
