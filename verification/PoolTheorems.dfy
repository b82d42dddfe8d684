/** What the pool promises, in terms of its own state. */
module PoolTheorems {
  import opened Common
  import opened WantConns
  import opened HostPool
  import opened PoolProtocol
  import opened PoolInvariants

  /** Connections in the hand of a goroutine: leased, being delivered, released or closed. */
  ghost function InHand(s: World): set<ConnId> {
    set t, c | t in s.tasks && c in Held(s.tasks[t]) :: c
  }

  /** Connections delivered to a waiter that has not taken them. */
  ghost function Undelivered(s: World): set<ConnId> {
    set w | w in s.pool.wants && s.pool.wants[w].conn.Some? :: s.pool.wants[w].conn.value
  }

  /** In every reachable state connsCount is the number of idle connections, plus those
      in somebody's hand, plus those delivered and not yet taken, plus the slots of dials
      that have produced no connection. The three groups of connections are disjoint. */
  lemma SlotsAreConserved(maxConns: int, waitEnabled: bool, strategy: Strategy, steps: seq<Step>)
    ensures var s := Run(Initial(maxConns, waitEnabled, strategy), steps);
      && s.pool.connsCount == |s.pool.conns| + |InHand(s)| + |Undelivered(s)| + |Matching(s.tasks, Bare)|
      && Elems(s.pool.conns) !! InHand(s) !! Undelivered(s)
  {
    RunKeeps(maxConns, waitEnabled, strategy, steps);
    Partition(Run(Initial(maxConns, waitEnabled, strategy), steps));
  }

  lemma Partition(s: World)
    requires Places(s)
    ensures |s.owner| == |s.pool.conns| + |InHand(s)| + |Undelivered(s)|
    ensures Elems(s.pool.conns) !! InHand(s) !! Undelivered(s)
  {
    IdlePart(s);
    HandPart(s);
    DeliveredPart(s);
    DistinctSize(s.pool.conns);
    OwnerKinds(s.owner);
  }

  lemma OwnerKinds(owner: map<ConnId, Place>)
    ensures |owner| == |set c | c in owner && owner[c].Idle?| + |set c | c in owner && owner[c].Hand?|
                       + |set c | c in owner && owner[c].Delivered?|
  {
    var idle, hand, gone := (set c | c in owner && owner[c].Idle?), (set c | c in owner && owner[c].Hand?),
      (set c | c in owner && owner[c].Delivered?);
    assert owner.Keys == idle + hand + gone;
  }

  lemma IdlePart(s: World)
    requires IdleOk(s.pool.conns, s.owner)
    ensures Elems(s.pool.conns) == set c | c in s.owner && s.owner[c].Idle?
  {
    forall c ensures c in s.pool.conns <==> c in s.owner && s.owner[c].Idle? {
      assert c in s.pool.conns <==> At(s.owner, c, Idle);
    }
  }

  lemma HandPart(s: World)
    requires HandsOk(s.tasks, s.owner)
    ensures InHand(s) == set c | c in s.owner && s.owner[c].Hand?
  {
    forall t, c | t in s.tasks && c in Held(s.tasks[t]) ensures c in s.owner && s.owner[c].Hand? {
      assert Holds(s.tasks, t, c);
    }
    forall c | c in s.owner && s.owner[c].Hand? ensures c in InHand(s) {
      assert At(s.owner, c, Hand(s.owner[c].t));
      assert Holds(s.tasks, s.owner[c].t, c);
    }
  }

  lemma DeliveredPart(s: World)
    requires DeliveredOk(s.pool.wants, s.owner)
    ensures Undelivered(s) == set c | c in s.owner && s.owner[c].Delivered?
  {
    forall w | w in s.pool.wants && s.pool.wants[w].conn.Some?
      ensures s.pool.wants[w].conn.value in s.owner && s.owner[s.pool.wants[w].conn.value].Delivered?
    {
      assert Carries(s.pool.wants, w, s.pool.wants[w].conn.value);
    }
    forall c | c in s.owner && s.owner[c].Delivered? ensures c in Undelivered(s) {
      assert At(s.owner, c, Delivered(s.owner[c].w));
      assert Carries(s.pool.wants, s.owner[c].w, c);
    }
  }

  /** No two places ever hold the same connection, and none holds it twice. */
  lemma OneOwner(maxConns: int, waitEnabled: bool, strategy: Strategy, steps: seq<Step>, c: ConnId)
    ensures var s := Run(Initial(maxConns, waitEnabled, strategy), steps);
      && Distinct(s.pool.conns)
      && (forall t, u :: t in s.tasks && u in s.tasks && c in Held(s.tasks[t]) && c in Held(s.tasks[u]) ==>
            t == u && Distinct(Held(s.tasks[t])))
      && (forall v, w | v in s.pool.wants && w in s.pool.wants ::
            s.pool.wants[v].conn == s.pool.wants[w].conn == Some(c) ==> v == w)
  {
    RunKeeps(maxConns, waitEnabled, strategy, steps);
    var s := Run(Initial(maxConns, waitEnabled, strategy), steps);
    forall t, u | t in s.tasks && u in s.tasks && c in Held(s.tasks[t]) && c in Held(s.tasks[u]) ensures t == u {
      assert Holds(s.tasks, t, c) && Holds(s.tasks, u, c);
    }
    forall v, w | v in s.pool.wants && w in s.pool.wants &&
      s.pool.wants[v].conn == s.pool.wants[w].conn == Some(c) ensures v == w {
      assert Carries(s.pool.wants, v, c) && Carries(s.pool.wants, w, c);
    }
  }

  /** No stranded waiter. Whenever the queue is not empty there is no idle connection and
      no free capacity; and a request that still waits is in the queue, or a goroutine is
      about to hand it a result. */
  lemma NoStrandedWaiter(maxConns: int, waitEnabled: bool, strategy: Strategy, steps: seq<Step>)
    ensures var s := Run(Initial(maxConns, waitEnabled, strategy), steps);
      && (s.pool.queue != [] ==> s.pool.conns == [] && s.pool.connsCount >= Cap(s.pool))
      && (forall w :: w in s.pool.wants && !s.pool.wants[w].Resolved() && w !in s.pool.queue ==>
            exists t :: Serving(s.tasks, t, w))
      && (forall w :: w in s.pool.wants && !s.pool.wants[w].Resolved() ==> exists t :: Calling(s.tasks, t, w))
  {
    RunKeeps(maxConns, waitEnabled, strategy, steps);
    var s := Run(Initial(maxConns, waitEnabled, strategy), steps);
    forall w | w in s.pool.wants && !s.pool.wants[w].Resolved() && w !in s.pool.queue
      ensures exists t :: Serving(s.tasks, t, w)
    {
      assert w in s.pool.queue <==> Served(s.server, w, InQueue);
      assert s.server[w].By?;
      assert Served(s.server, w, By(s.server[w].t));
      assert Serving(s.tasks, s.server[w].t, w);
    }
    forall w | w in s.pool.wants && !s.pool.wants[w].Resolved() ensures exists t :: Calling(s.tasks, t, w) {
      assert Wanted(s.pool.wants, w);
      assert Calling(s.tasks, s.caller[w], w);
    }
  }

  /** The ready channel of a wantConn is closed exactly when a result is set, and only once;
      queueForIdle, which ignores the result of tryDeliver, never loses a connection. */
  lemma ResolvedOnce(maxConns: int, waitEnabled: bool, strategy: Strategy, steps: seq<Step>)
    ensures var s := Run(Initial(maxConns, waitEnabled, strategy), steps);
      && (forall w :: w in s.pool.wants ==> s.pool.wants[w].closes == (if s.pool.wants[w].Resolved() then 1 else 0))
      && (forall t :: t in s.tasks && s.tasks[t].Handing? ==>
            s.tasks[t].w in s.pool.wants && !s.pool.wants[s.tasks[t].w].Resolved())
  {
    RunKeeps(maxConns, waitEnabled, strategy, steps);
    var s := Run(Initial(maxConns, waitEnabled, strategy), steps);
    forall t | t in s.tasks && s.tasks[t].Handing?
      ensures s.tasks[t].w in s.pool.wants && !s.pool.wants[s.tasks[t].w].Resolved()
    {
      HandOverReady(s, t);
    }
    forall w | w in s.pool.wants ensures s.pool.wants[w].Valid() {}
  }

  /** At most one cleaner is ever started or running, and idle connections have one. */
  lemma OneCleaner(maxConns: int, waitEnabled: bool, strategy: Strategy, steps: seq<Step>)
    ensures var s := Run(Initial(maxConns, waitEnabled, strategy), steps);
      && (forall t, u :: t in s.tasks && u in s.tasks && s.tasks[t].Cleaner? && s.tasks[u].Cleaner? ==> t == u)
      && (s.pool.conns != [] ==> exists t :: t in s.tasks && s.tasks[t].Cleaner?)
      && (s.pool.connsCount == 0 ==> s.pool.conns == [])
  {
    RunKeeps(maxConns, waitEnabled, strategy, steps);
    var s := Run(Initial(maxConns, waitEnabled, strategy), steps);
    var m := Matching(s.tasks, IsCleaner);
    forall t, u | t in s.tasks && u in s.tasks && s.tasks[t].Cleaner? && s.tasks[u].Cleaner? ensures t == u {
      assert m == {t} + (m - {t});
      assert u in m;
    }
    if s.pool.conns != [] {
      assert m != {};
      var t :| t in m;
      assert At(s.owner, s.pool.conns[0], Idle);
    }
  }

  /** No step that raises connsCount leaves it above the cap, and above a shrunken cap it
      only falls. */
  lemma CapRespected(s: World, step: Step)
    ensures CountStep(s.pool, Next(s, step).pool)
    ensures !step.SetMaxConns? ==> Cap(Next(s, step).pool) == Cap(s.pool)
  {
    match step
    case SetMaxConns(n) => GrowCount(s.(pool := s.pool.(maxConns := n)));
    case Dec(t) => if t in s.tasks { DecCount(s, t); }
    case Acquire(t) => if t in s.tasks && s.tasks[t].Acquiring? { AcquireCount(s, t); }
    case Queue(t) => if t in s.tasks && s.tasks[t].Queueing? { QueueCount(s, t); }
    case Release(t) => if t in s.tasks && s.tasks[t].Releasing? { ReleaseCount(s, t); }
    case _ => OtherCount(s, step);
  }

  predicate CountStep(p: Pool, p1: Pool) {
    && (p1.connsCount > p.connsCount ==> p1.connsCount <= Cap(p1))
    && (p.connsCount > Cap(p1) ==> p1.connsCount <= p.connsCount)
  }

  lemma FreeSlotCount(s: World)
    ensures CountStep(s.pool, FreeSlot(s).pool) && Cap(FreeSlot(s).pool) == Cap(s.pool)
  {
  }

  lemma DecCount(s: World, t: TaskId)
    requires t in s.tasks
    ensures CountStep(s.pool, DecStep(s, t).pool) && Cap(DecStep(s, t).pool) == Cap(s.pool)
  {
    hide FreeSlot;
    match s.tasks[t]
    case Retiring => FreeSlotCount(End(s, t));
    case Closing(cs) =>
      if cs != [] {
        var s0 := s.(owner := s.owner - {cs[0]});
        FreeSlotCount(if |cs| == 1 then End(s0, t) else Put(s0, t, Closing(cs[1..])));
      }
    case Cleaner(ClosingIdle(cs)) =>
      if cs != [] {
        var s0 := s.(owner := s.owner - {cs[0]});
        FreeSlotCount(Put(s0, t, Cleaner(if |cs| == 1 then Checking else ClosingIdle(cs[1..]))));
      }
    case _ =>
  }

  lemma AcquireCount(s: World, t: TaskId)
    requires t in s.tasks && s.tasks[t].Acquiring?
    ensures CountStep(s.pool, AcquireStep(s, t).pool) && Cap(AcquireStep(s, t).pool) == Cap(s.pool)
  {
  }

  lemma QueueCount(s: World, t: TaskId)
    requires t in s.tasks && s.tasks[t].Queueing?
    ensures CountStep(s.pool, QueueStep(s, t).pool) && Cap(QueueStep(s, t).pool) == Cap(s.pool)
  {
  }

  lemma ReleaseCount(s: World, t: TaskId)
    requires t in s.tasks && s.tasks[t].Releasing?
    ensures CountStep(s.pool, ReleaseStep(s, t).pool) && Cap(ReleaseStep(s, t).pool) == Cap(s.pool)
  {
  }

  lemma OtherCount(s: World, step: Step)
    requires !(step.SetMaxConns? || step.Dec? || step.Acquire? || step.Queue? || step.Release?)
    ensures CountStep(s.pool, Next(s, step).pool) && Cap(Next(s, step).pool) == Cap(s.pool)
  {
    hide HandOverStep, TakeStep, CancelStep, DeliverStep, DialOkStep, DialFailStep, ScanStep, StopStep, Grip;
    match step
    case HandOver(t) => if t in s.tasks { WaitCount(s, t); }
    case Take(t) => if t in s.tasks { WaitCount(s, t); }
    case CancelWait(t) => if t in s.tasks { WaitCount(s, t); }
    case DeliverTo(t) => if t in s.tasks { WaitCount(s, t); }
    case DialOk(t) => if t in s.tasks { DialCount(s, t, 0); }
    case DialFail(t) => if t in s.tasks { DialCount(s, t, 0); }
    case Scan(t, k) => if t in s.tasks { DialCount(s, t, k); }
    case Stop(t) => if t in s.tasks { DialCount(s, t, 0); }
    case _ =>
  }

  predicate SameCount(p: Pool, p1: Pool) { p1.connsCount == p.connsCount && p1.maxConns == p.maxConns }

  lemma WaitCount(s: World, t: TaskId)
    requires t in s.tasks
    ensures s.tasks[t].Handing? ==> SameCount(s.pool, HandOverStep(s, t).pool)
    ensures s.tasks[t].Awaiting? ==> SameCount(s.pool, TakeStep(s, t).pool)
    ensures s.tasks[t].Cancelling? ==> SameCount(s.pool, CancelStep(s, t).pool)
    ensures s.tasks[t].DeliveringTo? ==> SameCount(s.pool, DeliverStep(s, t).pool)
  {
    hide Deliver, Cancel;
  }

  lemma DialCount(s: World, t: TaskId, k: nat)
    requires t in s.tasks
    ensures SameCount(s.pool, DialOkStep(s, t).pool) && SameCount(s.pool, DialFailStep(s, t).pool)
    ensures k <= |s.pool.conns| ==> SameCount(s.pool, ScanStep(s, t, k).pool)
    ensures SameCount(s.pool, StopStep(s, t).pool)
  {
    hide Grip;
  }

  lemma {:induction false} GrowCount(s: World)
    ensures var s1 := Grow(s);
      && Cap(s1.pool) == Cap(s.pool)
      && s.pool.connsCount <= s1.pool.connsCount
      && (s1.pool.connsCount > s.pool.connsCount ==> s1.pool.connsCount <= Cap(s.pool))
    decreases |s.pool.queue|
  {
    if s.pool.connsCount < Cap(s.pool) {
      var (q, w) := ServeWaiter(s.pool.wants, s.pool.queue);
      ServeWaiterShrinks(s.pool.wants, s.pool.queue);
      if w.Some? { GrowCount(Grown(s, q, w.value)); }
    }
  }

  /** The step is SetMaxConns's section, with one dialing goroutine for each waiter served. */
  lemma {:induction false} GrowIsSection(s: World)
    ensures Grow(s).pool == GrowSection(s.pool).0
    ensures Grow(s).tasks == WithDials(s.tasks, s.nextTask, GrowSection(s.pool).1)
    decreases |s.pool.queue|
  {
    if s.pool.connsCount < Cap(s.pool) {
      var (q, w) := ServeWaiter(s.pool.wants, s.pool.queue);
      ServeWaiterShrinks(s.pool.wants, s.pool.queue);
      if w.Some? {
        var s1 := Grown(s, q, w.value);
        GrowIsSection(s1);
        assert GrowSection(s.pool).1[1..] == GrowSection(s1.pool).1;
      }
    }
  }

  function WithDials(tasks: map<TaskId, Task>, n: TaskId, ws: seq<WantId>): map<TaskId, Task>
    decreases ws
  {
    if ws == [] then tasks else WithDials(tasks[n := DialingFor(ws[0])], n + 1, ws[1..])
  }
}
