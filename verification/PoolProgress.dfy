/** When each section of the pool can run and what it gives, and that no goroutine is ever stuck
    (fasthttp/client.go:1848-2229, 2521-2563). */
module PoolProgress {
  import opened Common
  import opened WantConns
  import opened HostPool
  import opened PoolProtocol
  import opened PoolInvariants
  import opened PoolTheorems

  // ---- what a section gives

  /** An acquisition takes an idle connection if there is one, else a free slot if there is one; no
      connection and no slot is made or lost. The flag goes up exactly when a cleaner is started, which
      a request that closes its connection never does. */
  lemma AcquireGives(p: Pool, close: bool)
    ensures var (p1, grant, start) := AcquireSection(p, close);
      && (p.conns != [] && !p.strategy.Unsupported? ==>
            && grant.Got? && multiset(p.conns) == multiset(p1.conns) + multiset{grant.c}
            && p1 == p.(conns := p1.conns))
      && (p.conns != [] && p.strategy.Unsupported? ==> grant == BadStrategy && p1 == p)
      && (p.conns == [] ==> (grant == Reserved <==> p.connsCount < Cap(p)) && (grant == Refused <==> grant != Reserved))
      && (grant == Reserved ==> p1 == p.(connsCount := p.connsCount + 1, cleanerRun := p1.cleanerRun))
      && (grant == Refused ==> p1 == p)
      && (start <==> p1.cleanerRun && !p.cleanerRun)
      && (p1.cleanerRun <==> p.cleanerRun || (grant == Reserved && !close))
  {
    if p.conns != [] {
      assert p.conns == [p.conns[0]] + p.conns[1..];
      assert p.conns == p.conns[..|p.conns| - 1] + [p.conns[|p.conns| - 1]];
    }
  }

  /** Under the lock again: the same as long as that is possible, else a place at the end of the queue. */
  lemma QueueGives(p: Pool, w: WantId, close: bool)
    ensures var (p1, grant, start) := QueueSection(p, w, close);
      if p.conns != [] || p.connsCount < Cap(p) then (p1, grant, start) == AcquireSection(p, close)
      else
        && grant == Refused && !start && p1 == p.(queue := p1.queue) && p1.queue != []
        && p1.queue[|p1.queue| - 1] == w && p1.queue[..|p1.queue| - 1] == ClearFront(p.wants, p.queue)
  {
  }

  /** A released connection goes to the first request that waits, else to the idle list; the flag is up
      afterwards if that list is not empty, and a cleaner is started exactly when it goes up. */
  lemma ReleaseGives(p: Pool, c: ConnId)
    requires Distinct(p.queue) && forall w :: w in p.wants ==> p.wants[w].Valid()
    ensures var (p1, taken, start) := ReleaseSection(p, c, {});
      && (taken.Some? <==> p.waitEnabled && exists w :: w in p.queue && Waiting(p.wants, w))
      && (taken.Some? ==> p1.conns == p.conns && taken.value in p1.wants && p1.wants[taken.value].conn == Some(c))
      && (taken.None? ==> p1.conns == p.conns + [c] && p1.wants == p.wants)
      && p1.connsCount == p.connsCount && p1.maxConns == p.maxConns && p1.strategy == p.strategy
      && (p1.cleanerRun <==> p.cleanerRun || p1.conns != [])
      && (start <==> p1.cleanerRun && !p.cleanerRun)
  {
    if p.waitEnabled {
      hide Distinct;
      OfferFinds(p.wants, p.queue, c);
    }
  }

  lemma {:induction false} OfferFinds(wants: map<WantId, Want>, queue: seq<WantId>, c: ConnId)
    requires forall w :: w in wants ==> wants[w].Valid()
    ensures var (wants1, q, taken) := Offer(wants, queue, c, {});
      && (taken.Some? <==> exists w :: w in queue && Waiting(wants, w))
      && (taken.Some? ==> taken.value in wants1 && wants1[taken.value].conn == Some(c))
      && (taken.None? ==> wants1 == wants)
    decreases queue
  {
    if queue != [] {
      assert queue == [queue[0]] + queue[1..];
      if !Waiting(wants, queue[0]) { OfferFinds(wants, queue[1..], c); }
    }
  }

  /** A slot that is freed goes to the first request that waits, unless the cap has shrunk; otherwise
      there is one less. */
  lemma DecGives(p: Pool)
    ensures var (p1, w) := DecSection(p);
      && (w.Some? <==> p.waitEnabled && p.connsCount <= Cap(p) && exists v :: v in p.queue && Waiting(p.wants, v))
      && p1 == p.(connsCount := p.connsCount - (if w.Some? then 0 else 1), queue := p1.queue)
  {
    ServeFinds(p.wants, p.queue);
  }

  lemma {:induction false} ServeFinds(wants: map<WantId, Want>, queue: seq<WantId>)
    ensures ServeWaiter(wants, queue).1.Some? <==> exists v :: v in queue && Waiting(wants, v)
  {
    if queue != [] {
      assert queue == [queue[0]] + queue[1..];
      if !Waiting(wants, queue[0]) { ServeFinds(wants, queue[1..]); }
    }
  }

  /** A raised cap hands out slots until there are no more, or nobody waits. */
  lemma {:induction false} GrowGives(p: Pool)
    ensures var (p1, ws) := GrowSection(p);
      && p1 == p.(connsCount := p.connsCount + |ws|, queue := p1.queue)
      && (p1.connsCount >= Cap(p) || forall v :: v in p1.queue ==> !Waiting(p.wants, v))
      && (forall w :: w in ws ==> w in p.queue && Waiting(p.wants, w))
    decreases |p.queue|
  {
    if p.connsCount < Cap(p) {
      ServeFinds(p.wants, p.queue);
      ServeWaiterShrinks(p.wants, p.queue);
      var (q, w) := ServeWaiter(p.wants, p.queue);
      if w.Some? { GrowGives(p.(queue := q, connsCount := p.connsCount + 1)); }
    }
  }

  /** SetMaxConns in the protocol is its section. */
  lemma SetMaxIs(s: World, n: int)
    ensures Next(s, SetMaxConns(n)).pool == SetMaxSection(s.pool, n).0
    ensures SetMaxSection(s.pool, n).0.maxConns == n
  {
    GrowIsSection(s.(pool := s.pool.(maxConns := n)));
    GrowGives(s.pool.(maxConns := n));
    hide Grow, GrowSection;
  }

  /** Without a configured cap there are 512 connections to a host. */
  lemma CapIs(p: Pool)
    ensures Cap(p) == if p.maxConns > 0 then p.maxConns else 512
  {
  }

  /** CloseIdleConnections leaves no idle connection, and closes exactly those that were; nobody else
      is affected. */
  lemma CloseTakesAll(s: World)
    ensures var s1 := Next(s, CloseIdle);
      && s1.pool == s.pool.(conns := [])
      && (s.pool.conns == [] ==> s1 == s)
      && (s.pool.conns != [] ==> s1.tasks == s.tasks[s.nextTask := Closing(s.pool.conns)])
  {
  }

  /** A cleaner that checks stops exactly when no slot is taken, and then the flag is down; otherwise
      it scans again. */
  lemma CleanerStops(s: World, t: TaskId)
    requires t in s.tasks && s.tasks[t] == Cleaner(Checking)
    ensures var s1 := Next(s, Stop(t));
      && (t !in s1.tasks <==> s.pool.connsCount == 0)
      && s1.pool == s.pool.(cleanerRun := s.pool.cleanerRun && s.pool.connsCount != 0)
      && (s.pool.connsCount != 0 ==> s1.tasks == s.tasks[t := Cleaner(Scanning)])
  {
  }

  /** What a cleaner scans is split into what it will close and what stays, in order. */
  lemma CleanerSplits(s: World, t: TaskId, k: nat)
    requires t in s.tasks && s.tasks[t] == Cleaner(Scanning) && k <= |s.pool.conns|
    ensures var s1 := Next(s, Scan(t, k));
      && t in s1.tasks && s.pool.conns == Held(s1.tasks[t]) + s1.pool.conns && |Held(s1.tasks[t])| == k
      && (s1.tasks[t] == Cleaner(Checking) <==> k == 0)
  {
    hide Grip;
    assert s.pool.conns == s.pool.conns[..k] + s.pool.conns[k..];
  }

  // ---- when a step can be taken

  predicate Dials(x: Task) { x.Dialing? || x.DialingFor? }

  /** About to run decConnsCount. */
  predicate Frees(x: Task) { x.Retiring? || (x.Closing? && x.cs != []) || (x.Cleaner? && Held(x) != []) }

  /** The wantConn the goroutine works on is there. */
  predicate Knows(s: World, x: Task) {
    match x
    case Handing(w, _) => w in s.pool.wants
    case DeliveringTo(w, _) => w in s.pool.wants
    case Cancelling(w) => w in s.pool.wants
    case _ => false
  }

  predicate Enabled(s: World, step: Step) {
    match step
    case Enter(_) => true
    case Acquire(t) => t in s.tasks && s.tasks[t].Acquiring?
    case Queue(t) => t in s.tasks && s.tasks[t].Queueing?
    case HandOver(t) => t in s.tasks && s.tasks[t].Handing? && Knows(s, s.tasks[t])
    case Take(t) => t in s.tasks && s.tasks[t].Awaiting? && Ready(s, s.tasks[t].w)
    case Timeout(t) => t in s.tasks && s.tasks[t].Awaiting?
    case CancelWait(t) => t in s.tasks && s.tasks[t].Cancelling? && Knows(s, s.tasks[t])
    case DialOk(t) => t in s.tasks && Dials(s.tasks[t])
    case DialFail(t) => t in s.tasks && Dials(s.tasks[t])
    case DeliverTo(t) => t in s.tasks && s.tasks[t].DeliveringTo? && Knows(s, s.tasks[t])
    case GiveBack(t) => t in s.tasks && s.tasks[t].Leased?
    case Discard(t) => t in s.tasks && s.tasks[t].Leased?
    case Release(t) => t in s.tasks && s.tasks[t].Releasing?
    case Dec(t) => t in s.tasks && Frees(s.tasks[t])
    case CloseIdle => s.pool.conns != []
    case Scan(t, k) => t in s.tasks && s.tasks[t] == Cleaner(Scanning) && k <= |s.pool.conns|
    case Stop(t) => t in s.tasks && s.tasks[t] == Cleaner(Checking)
    case SetMaxConns(_) => true
  }

  /** The ready channel of w is closed. */
  predicate Ready(s: World, w: WantId) { w in s.pool.wants && s.pool.wants[w].closes > 0 }

  /** The goroutine that takes a step. */
  function Of(step: Step): Option<TaskId> {
    match step
    case Enter(_) => None
    case SetMaxConns(_) => None
    case CloseIdle => None
    case Acquire(t) => Some(t)
    case Queue(t) => Some(t)
    case HandOver(t) => Some(t)
    case Take(t) => Some(t)
    case Timeout(t) => Some(t)
    case CancelWait(t) => Some(t)
    case DialOk(t) => Some(t)
    case DialFail(t) => Some(t)
    case DeliverTo(t) => Some(t)
    case GiveBack(t) => Some(t)
    case Discard(t) => Some(t)
    case Release(t) => Some(t)
    case Dec(t) => Some(t)
    case Scan(t, _) => Some(t)
    case Stop(t) => Some(t)
  }

  /** The goroutine is somewhere else afterwards, or has ended. */
  predicate Moved(s: World, s1: World, t: TaskId) { t in s.tasks && (t !in s1.tasks || s1.tasks[t] != s.tasks[t]) }

  /** A step changes something exactly when it is enabled. */
  lemma EnabledExactly(s: World, step: Step)
    requires !step.SetMaxConns?
    ensures Next(s, step) != s <==> Enabled(s, step)
    ensures Enabled(s, step) && Of(step).Some? && Of(step).value < s.nextTask ==>
      Moved(s, Next(s, step), Of(step).value)
  {
    hide AcquireStep, QueueStep, ReleaseStep, DecStep, HandOverStep, TakeStep, CancelStep, DeliverStep, DialOkStep,
         DialFailStep, ScanStep, StopStep, Grip, Frees, Dials, Knows, Ready, Moved;
    match step
    case Acquire(t) => if t in s.tasks && s.tasks[t].Acquiring? { AcquireMoves(s, t); }
    case Queue(t) => if t in s.tasks && s.tasks[t].Queueing? { QueueMoves(s, t); }
    case Dec(t) => if t in s.tasks { DecMoves(s, t); }
    case Release(t) => if t in s.tasks && s.tasks[t].Releasing? { ReleaseMoves(s, t); }
    case HandOver(t) => if t in s.tasks { WaitMoves(s, t); }
    case Take(t) => if t in s.tasks { WaitMoves(s, t); }
    case CancelWait(t) => if t in s.tasks { WaitMoves(s, t); }
    case DeliverTo(t) => if t in s.tasks { WaitMoves(s, t); }
    case Timeout(t) => if t in s.tasks && s.tasks[t].Awaiting? { PutMoves(s, t, Cancelling(s.tasks[t].w)); }
    case GiveBack(t) => if t in s.tasks && s.tasks[t].Leased? { PutMoves(s, t, Releasing(s.tasks[t].c)); }
    case Discard(t) => if t in s.tasks && s.tasks[t].Leased? { PutMoves(s, t, Closing([s.tasks[t].c])); }
    case DialOk(t) => if t in s.tasks { DialMoves(s, t); }
    case DialFail(t) => if t in s.tasks { DialMoves(s, t); }
    case Scan(t, k) => if t in s.tasks { CleanerMoves(s, t, k); }
    case Stop(t) => if t in s.tasks { CleanerMoves(s, t, 0); }
    case _ =>
  }

  lemma PutMoves(s: World, t: TaskId, x: Task)
    requires t in s.tasks && s.tasks[t] != x
    ensures Put(s, t, x) != s && Moved(s, Put(s, t, x), t)
  {
    assert Put(s, t, x).tasks[t] == x;
  }

  lemma WaitMoves(s: World, t: TaskId)
    requires t in s.tasks
    ensures s.tasks[t].Handing? ==>
      (HandOverStep(s, t) != s <==> Knows(s, s.tasks[t])) && (Knows(s, s.tasks[t]) ==> Moved(s, HandOverStep(s, t), t))
    ensures s.tasks[t].Awaiting? ==>
      (TakeStep(s, t) != s <==> Ready(s, s.tasks[t].w)) && (Ready(s, s.tasks[t].w) ==> Moved(s, TakeStep(s, t), t))
    ensures s.tasks[t].Cancelling? ==>
      (CancelStep(s, t) != s <==> Knows(s, s.tasks[t])) && (Knows(s, s.tasks[t]) ==> Moved(s, CancelStep(s, t), t))
    ensures s.tasks[t].DeliveringTo? ==>
      (DeliverStep(s, t) != s <==> Knows(s, s.tasks[t])) && (Knows(s, s.tasks[t]) ==> Moved(s, DeliverStep(s, t), t))
  {
    hide Deliver, Cancel;
  }

  lemma DialMoves(s: World, t: TaskId)
    requires t in s.tasks
    ensures DialOkStep(s, t) != s <==> Dials(s.tasks[t])
    ensures DialFailStep(s, t) != s <==> Dials(s.tasks[t])
    ensures Dials(s.tasks[t]) ==> Moved(s, DialOkStep(s, t), t) && Moved(s, DialFailStep(s, t), t)
  {
  }

  lemma CleanerMoves(s: World, t: TaskId, k: nat)
    requires t in s.tasks
    ensures s.tasks[t] == Cleaner(Scanning) && k <= |s.pool.conns| ==>
      ScanStep(s, t, k) != s && Moved(s, ScanStep(s, t, k), t)
    ensures s.tasks[t] == Cleaner(Checking) ==> StopStep(s, t) != s && Moved(s, StopStep(s, t), t)
  {
    hide Grip;
  }

  lemma AcquireMoves(s: World, t: TaskId)
    requires t in s.tasks && s.tasks[t].Acquiring?
    ensures AcquireStep(s, t) != s && (t < s.nextTask ==> Moved(s, AcquireStep(s, t), t))
  {
    hide AcquireSection;
  }

  lemma QueueMoves(s: World, t: TaskId)
    requires t in s.tasks && s.tasks[t].Queueing?
    ensures QueueStep(s, t) != s && (t < s.nextTask ==> Moved(s, QueueStep(s, t), t))
  {
    hide QueueSection, Dropped;
  }

  lemma ReleaseMoves(s: World, t: TaskId)
    requires t in s.tasks && s.tasks[t].Releasing?
    ensures ReleaseStep(s, t) != s && (t < s.nextTask ==> Moved(s, ReleaseStep(s, t), t))
  {
    hide ReleaseSection, Dropped;
  }

  /** A freed slot changes no goroutine, but may start one. */
  lemma FreeSlotTasks(s: World)
    ensures var s1 := FreeSlot(s);
      && s1.nextTask >= s.nextTask
      && (s1.nextTask == s.nextTask ==> s1.tasks == s.tasks)
      && (forall t :: t < s.nextTask ==>
            (t in s1.tasks <==> t in s.tasks) && (t in s.tasks ==> s1.tasks[t] == s.tasks[t]))
  {
    hide DecSection, Dropped;
  }

  lemma DecMoves(s: World, t: TaskId)
    requires t in s.tasks
    ensures DecStep(s, t) != s <==> Frees(s.tasks[t])
    ensures Frees(s.tasks[t]) && t < s.nextTask ==> Moved(s, DecStep(s, t), t)
  {
    hide FreeSlot;
    match s.tasks[t]
    case Retiring => FreeSlotTasks(End(s, t));
    case Closing(cs) =>
      if cs != [] {
        var s0 := s.(owner := s.owner - {cs[0]});
        FreeSlotTasks(if |cs| == 1 then End(s0, t) else Put(s0, t, Closing(cs[1..])));
      }
    case Cleaner(ClosingIdle(cs)) =>
      if cs != [] {
        var s0 := s.(owner := s.owner - {cs[0]});
        FreeSlotTasks(Put(s0, t, Cleaner(if |cs| == 1 then Checking else ClosingIdle(cs[1..]))));
      }
    case _ =>
  }

  // ---- no goroutine is stuck

  /** The step a goroutine takes next, when its dials fail and nobody interrupts it. */
  function Own(t: TaskId, x: Task): Step {
    match x
    case Acquiring(_) => Acquire(t)
    case Dialing => DialFail(t)
    case Queueing(_, _) => Queue(t)
    case Handing(_, _) => HandOver(t)
    case Awaiting(_) => Take(t)
    case Cancelling(_) => CancelWait(t)
    case Leased(_) => GiveBack(t)
    case DialingFor(_) => DialFail(t)
    case DeliveringTo(_, _) => DeliverTo(t)
    case Retiring => Dec(t)
    case Releasing(_) => Release(t)
    case Closing(_) => Dec(t)
    case Cleaner(Scanning) => Scan(t, 0)
    case Cleaner(ClosingIdle(_)) => Dec(t)
    case Cleaner(Checking) => Stop(t)
  }

  /** A goroutine that closes connections has one to close. */
  predicate Busy(x: Task) {
    match x
    case Closing(cs) => cs != []
    case Cleaner(ClosingIdle(cs)) => cs != []
    case _ => true
  }

  predicate AllBusy(s: World) { forall t :: t in s.tasks ==> Busy(s.tasks[t]) }

  lemma {:induction false} GrowBusy(s: World)
    requires AllBusy(s)
    ensures AllBusy(Grow(s))
    decreases |s.pool.queue|
  {
    hide Dropped;
    if s.pool.connsCount < Cap(s.pool) {
      var (q, w) := ServeWaiter(s.pool.wants, s.pool.queue);
      ServeWaiterShrinks(s.pool.wants, s.pool.queue);
      if w.Some? { GrowBusy(Grown(s, q, w.value)); }
    }
  }

  lemma FreeSlotBusy(s: World)
    requires AllBusy(s)
    ensures AllBusy(FreeSlot(s))
  {
    hide DecSection, Dropped;
  }

  lemma DecBusy(s: World, t: TaskId)
    requires AllBusy(s) && t in s.tasks
    ensures AllBusy(DecStep(s, t))
  {
    hide FreeSlot;
    match s.tasks[t]
    case Retiring => FreeSlotBusy(End(s, t));
    case Closing(cs) =>
      var s0 := s.(owner := s.owner - {cs[0]});
      FreeSlotBusy(if |cs| == 1 then End(s0, t) else Put(s0, t, Closing(cs[1..])));
    case Cleaner(ClosingIdle(cs)) =>
      var s0 := s.(owner := s.owner - {cs[0]});
      FreeSlotBusy(Put(s0, t, Cleaner(if |cs| == 1 then Checking else ClosingIdle(cs[1..]))));
    case _ =>
  }

  lemma StepBusy(s: World, step: Step)
    requires AllBusy(s)
    ensures AllBusy(Next(s, step))
  {
    hide AllBusy, Grow, DecStep, AcquireStep, QueueStep, ReleaseStep, CancelStep, DeliverStep, HandOverStep, TakeStep,
         DialOkStep, DialFailStep, ScanStep, StopStep, Grip;
    SameBusy(s);
    match step
    case SetMaxConns(n) => GrowBusy(s.(pool := s.pool.(maxConns := n)));
    case Dec(t) => if t in s.tasks { DecBusy(s, t); }
    case Acquire(t) => if t in s.tasks && s.tasks[t].Acquiring? { SectionBusy(s, t); }
    case Queue(t) => if t in s.tasks && s.tasks[t].Queueing? { SectionBusy(s, t); }
    case Release(t) => if t in s.tasks && s.tasks[t].Releasing? { SectionBusy(s, t); }
    case CancelWait(t) => if t in s.tasks && s.tasks[t].Cancelling? { SectionBusy(s, t); }
    case DeliverTo(t) => if t in s.tasks && s.tasks[t].DeliveringTo? { SectionBusy(s, t); }
    case _ => OtherBusy(s, step);
  }

  lemma SameBusy(s: World)
    requires AllBusy(s)
    ensures forall s1: World :: s1.tasks == s.tasks ==> AllBusy(s1)
  {
  }

  lemma OtherBusy(s: World, step: Step)
    requires AllBusy(s)
    requires step.Enter? || step.HandOver? || step.Take? || step.Timeout? || step.DialOk? || step.DialFail?
             || step.GiveBack? || step.Discard? || step.CloseIdle? || step.Scan? || step.Stop?
    ensures AllBusy(Next(s, step))
  {
    hide Grip, Deliver;
  }

  lemma SectionBusy(s: World, t: TaskId)
    requires AllBusy(s) && t in s.tasks
    ensures s.tasks[t].Acquiring? ==> AllBusy(AcquireStep(s, t))
    ensures s.tasks[t].Queueing? ==> AllBusy(QueueStep(s, t))
    ensures s.tasks[t].Releasing? ==> AllBusy(ReleaseStep(s, t))
    ensures s.tasks[t].Cancelling? ==> AllBusy(CancelStep(s, t))
    ensures s.tasks[t].DeliveringTo? ==> AllBusy(DeliverStep(s, t))
  {
    hide AcquireSection, QueueSection, ReleaseSection, Dropped, Deliver, Cancel;
  }

  lemma {:induction false} RunBusy(maxConns: int, waitEnabled: bool, strategy: Strategy, steps: seq<Step>)
    ensures AllBusy(Run(Initial(maxConns, waitEnabled, strategy), steps))
  {
    hide Next, AllBusy;
    if steps == [] {
      assert AllBusy(Initial(maxConns, waitEnabled, strategy)) by { InitialBusy(maxConns, waitEnabled, strategy); }
    } else {
      RunBusy(maxConns, waitEnabled, strategy, steps[..|steps| - 1]);
      StepBusy(Run(Initial(maxConns, waitEnabled, strategy), steps[..|steps| - 1]), steps[|steps| - 1]);
    }
  }

  lemma InitialBusy(maxConns: int, waitEnabled: bool, strategy: Strategy)
    ensures AllBusy(Initial(maxConns, waitEnabled, strategy))
  {
  }

  /** In every reachable state each goroutine can go on by itself, and does so when it is scheduled; a
      request that waits can once its ready channel is closed, and until then it can time out. */
  lemma GoroutinesMove(maxConns: int, waitEnabled: bool, strategy: Strategy, steps: seq<Step>, t: TaskId)
    ensures var s := Run(Initial(maxConns, waitEnabled, strategy), steps);
      t in s.tasks ==>
        && (Moved(s, Next(s, Own(t, s.tasks[t])), t) <==> (s.tasks[t].Awaiting? ==> Ready(s, s.tasks[t].w)))
        && (s.tasks[t].Awaiting? ==> Moved(s, Next(s, Timeout(t)), t))
  {
    RunKeeps(maxConns, waitEnabled, strategy, steps);
    RunBusy(maxConns, waitEnabled, strategy, steps);
    var s := Run(Initial(maxConns, waitEnabled, strategy), steps);
    if t in s.tasks {
      CanMove(s, t);
    }
  }

  lemma CanMove(s: World, t: TaskId)
    requires Inv(s) && AllBusy(s) && t in s.tasks
    ensures Moved(s, Next(s, Own(t, s.tasks[t])), t) <==> (s.tasks[t].Awaiting? ==> Ready(s, s.tasks[t].w))
    ensures s.tasks[t].Awaiting? ==> Moved(s, Next(s, Timeout(t)), t)
  {
    assert t < s.nextTask;
    OwnEnabled(s, t);
    hide Inv, AllBusy, Next, Ready;
    EnabledExactly(s, Own(t, s.tasks[t]));
    EnabledExactly(s, Timeout(t));
  }

  lemma OwnEnabled(s: World, t: TaskId)
    requires Parts(s) && AllBusy(s) && t in s.tasks
    ensures Enabled(s, Own(t, s.tasks[t])) <==> (s.tasks[t].Awaiting? ==> Ready(s, s.tasks[t].w))
    ensures Of(Own(t, s.tasks[t])) == Some(t) && !Own(t, s.tasks[t]).SetMaxConns?
    ensures s.tasks[t].Awaiting? ==> Enabled(s, Timeout(t))
  {
    hide Ready, Knows, Parts;
    var x := s.tasks[t];
    assert Busy(x);
    if x.Handing? || x.DeliveringTo? || x.Cancelling? { TaskKnows(s, t); }
  }

  lemma TaskKnows(s: World, t: TaskId)
    requires Parts(s) && t in s.tasks && (s.tasks[t].Handing? || s.tasks[t].DeliveringTo? || s.tasks[t].Cancelling?)
    ensures Knows(s, s.tasks[t])
  {
    hide IdleOk, DeliveredOk, HandsOk, QueueOk, ResolvedOk;
    var w := s.tasks[t].w;
    if s.tasks[t].Cancelling? {
      assert Calling(s.tasks, t, w);
    } else {
      assert Serving(s.tasks, t, w);
      assert Served(s.server, w, By(t));
    }
  }

  // ---- where a goroutine goes

  ghost predicate Becomes(s: World, s1: World, t: TaskId, x: Task) { t in s1.tasks && s1.tasks[t] == x }

  /** A request that gets a connection has it leased; one that may wait is queued with a wantConn of its
      own; otherwise it fails. */
  lemma AcquireLeads(s: World, t: TaskId)
    requires t in s.tasks && s.tasks[t].Acquiring? && t < s.nextTask
    ensures var s1, grant := Next(s, Acquire(t)), AcquireSection(s.pool, s.tasks[t].connectionClose).1;
      && (grant.Got? ==> Becomes(s, s1, t, Leased(grant.c)))
      && (grant == Reserved ==> Becomes(s, s1, t, Dialing))
      && (grant == Refused && s.pool.waitEnabled ==>
            Becomes(s, s1, t, Queueing(s.nextWant, s.tasks[t].connectionClose)))
      && (grant == BadStrategy || (grant == Refused && !s.pool.waitEnabled) ==> t !in s1.tasks)
  {
    AcquireGives(s.pool, s.tasks[t].connectionClose);
    hide AcquireSection;
  }

  /** A queued request that finds one after all hands it to itself, a free slot gets a dial for it, and
      else it waits. */
  lemma QueueLeads(s: World, t: TaskId)
    requires t in s.tasks && s.tasks[t].Queueing? && t < s.nextTask
    ensures var w := s.tasks[t].w;
      var s1, grant := Next(s, Queue(t)), QueueSection(s.pool, w, s.tasks[t].connectionClose).1;
      && (grant.Got? ==> Becomes(s, s1, t, Handing(w, Conn(grant.c))))
      && (grant == BadStrategy ==> Becomes(s, s1, t, Handing(w, Failure)))
      && (grant == Refused ==> Becomes(s, s1, t, Awaiting(w)))
      && (grant == Reserved ==> Becomes(s, s1, t, Awaiting(w)) && Becomes(s, s1, s.nextTask, DialingFor(w)))
  {
    hide QueueSection, Dropped;
  }

  /** A connection that was delivered and is not wanted any more goes back to the pool, whoever finds out. */
  lemma WaitLeads(s: World, t: TaskId)
    requires t in s.tasks && (Knows(s, s.tasks[t]) || (s.tasks[t].Awaiting? && Ready(s, s.tasks[t].w)))
    ensures var x, wants := s.tasks[t], s.pool.wants;
      && (x.Handing? ==> Becomes(s, Next(s, HandOver(t)), t, Awaiting(x.w)))
      && (x.Awaiting? && wants[x.w].conn.Some? ==> Becomes(s, Next(s, Take(t)), t, Leased(wants[x.w].conn.value)))
      && (x.Awaiting? && wants[x.w].conn.None? ==> Becomes(s, Next(s, Take(t)), t, Cancelling(x.w)))
      && (x.Cancelling? && wants[x.w].conn.Some? ==>
            Becomes(s, Next(s, CancelWait(t)), t, Releasing(wants[x.w].conn.value)))
      && (x.Cancelling? && wants[x.w].conn.None? ==> t !in Next(s, CancelWait(t)).tasks)
      && (x.DeliveringTo? && x.parcel.Failure? ==> Becomes(s, Next(s, DeliverTo(t)), t, Retiring))
      && (x.DeliveringTo? && x.parcel.Conn? && wants[x.w].Resolved() ==>
            Becomes(s, Next(s, DeliverTo(t)), t, Releasing(x.parcel.c)))
      && (x.DeliveringTo? && x.parcel.Conn? && !wants[x.w].Resolved() ==> t !in Next(s, DeliverTo(t)).tasks)
  {
    hide Deliver, Cancel;
  }

  /** A dial gives a new connection to whoever dialed, or its slot is freed. */
  lemma DialLeads(s: World, t: TaskId)
    requires t in s.tasks && Dials(s.tasks[t])
    ensures var x, ok, bad := s.tasks[t], Next(s, DialOk(t)), Next(s, DialFail(t));
      && (x.Dialing? ==> Becomes(s, ok, t, Leased(s.nextConn)) && Becomes(s, bad, t, Retiring))
      && (x.DialingFor? ==>
            Becomes(s, ok, t, DeliveringTo(x.w, Conn(s.nextConn))) && Becomes(s, bad, t, DeliveringTo(x.w, Failure)))
      && ok.pool == s.pool && bad.pool == s.pool
  {
  }
}
