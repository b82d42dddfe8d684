/** What every run of the pool keeps. */
module PoolInvariants {
  import opened Common
  import opened WantConns
  import opened HostPool
  import opened PoolProtocol

  function Matching(tasks: map<TaskId, Task>, f: Task -> bool): set<TaskId> {
    set t | t in tasks && f(tasks[t])
  }

  predicate IsCleaner(x: Task) { x.Cleaner? }

  predicate At(owner: map<ConnId, Place>, c: ConnId, p: Place) { c in owner && owner[c] == p }

  predicate Holds(tasks: map<TaskId, Task>, t: TaskId, c: ConnId) { t in tasks && c in Held(tasks[t]) }

  predicate Carries(wants: map<WantId, Want>, w: WantId, c: ConnId) { w in wants && wants[w].conn == Some(c) }

  predicate Served(server: map<WantId, Server>, w: WantId, x: Server) { w in server && server[w] == x }

  predicate Serving(tasks: map<TaskId, Task>, t: TaskId, w: WantId) { t in tasks && Serves(tasks[t]) == Some(w) }

  predicate Calling(tasks: map<TaskId, Task>, t: TaskId, w: WantId) { t in tasks && Calls(tasks[t]) == Some(w) }

  // Every connection is in exactly one place: `owner` is a function, and these
  // three say that it names exactly where the connections really are.

  ghost predicate IdleOk(conns: seq<ConnId>, owner: map<ConnId, Place>) {
    && Distinct(conns)
    && forall c :: c in conns <==> At(owner, c, Idle)
  }

  ghost predicate DeliveredOk(wants: map<WantId, Want>, owner: map<ConnId, Place>) {
    forall w, c :: Carries(wants, w, c) <==> At(owner, c, Delivered(w))
  }

  ghost predicate HandsOk(tasks: map<TaskId, Task>, owner: map<ConnId, Place>) {
    && (forall t, c :: Holds(tasks, t, c) <==> At(owner, c, Hand(t)))
    && (forall t :: t in tasks ==> Distinct(Held(tasks[t])))
  }

  ghost predicate WantsOk(wants: map<WantId, Want>, server: map<WantId, Server>, caller: map<WantId, TaskId>) {
    && (forall w :: w in wants ==> wants[w].Valid())
    && server.Keys == wants.Keys
    && caller.Keys == wants.Keys
  }

  // Every unresolved request is served by the queue or by exactly one goroutine,
  // and a delivered connection has no one else coming.

  ghost predicate QueueOk(queue: seq<WantId>, server: map<WantId, Server>) {
    && Distinct(queue)
    && forall w :: w in queue <==> Served(server, w, InQueue)
  }

  ghost predicate ServingOk(tasks: map<TaskId, Task>, server: map<WantId, Server>) {
    forall t, w :: Serving(tasks, t, w) <==> Served(server, w, By(t))
  }

  ghost predicate ResolvedOk(wants: map<WantId, Want>, server: map<WantId, Server>) {
    forall w :: w in wants && w in server ==>
      && (server[w].Nobody? ==> wants[w].Resolved())
      && (wants[w].conn.Some? ==> server[w].Nobody?)
  }

  /** The request behind w still needs its caller: to wait on, or to pick up a connection. */
  predicate Wanted(wants: map<WantId, Want>, w: WantId) {
    w in wants && (!wants[w].Resolved() || wants[w].conn.Some?)
  }

  predicate Untouched(wants: map<WantId, Want>, w: WantId) { w in wants ==> !wants[w].Resolved() }

  /** Every unresolved or delivered wantConn has the one goroutine that waits on it. */
  ghost predicate CallersOk(tasks: map<TaskId, Task>, wants: map<WantId, Want>, caller: map<WantId, TaskId>) {
    && (forall t, w :: Calling(tasks, t, w) ==> w in caller && caller[w] == t)
    && (forall w :: Wanted(wants, w) ==> w in caller && Calling(tasks, caller[w], w))
    && (forall t, w :: Calling(tasks, t, w) && Serving(tasks, t, w) ==> Untouched(wants, w))
  }

  /** A non-empty wait queue means no idle connection and no free capacity. */
  ghost predicate NotStranded(p: Pool) {
    p.queue != [] ==> p.conns == [] && p.connsCount >= Cap(p)
  }

  ghost predicate FreshOk(s: World) {
    && (forall t :: t in s.tasks ==> t < s.nextTask)
    && (forall c :: c in s.owner ==> c < s.nextConn)
    && (forall w :: w in s.pool.wants ==> w < s.nextWant)
  }

  /** connsCount counts the connections, the slots without one and `slots` more that are
      between two holders; the flag is set exactly while there is one cleaner, counting
      `cleaners` about to start; idle connections have one. */
  ghost predicate Tally(s: World, slots: int, cleaners: int) {
    && s.pool.connsCount == |s.owner| + |Matching(s.tasks, Bare)| + slots
    && |Matching(s.tasks, IsCleaner)| + cleaners == (if s.pool.cleanerRun then 1 else 0)
    && (s.pool.conns != [] ==> s.pool.cleanerRun)
    && FreshOk(s)
  }

  ghost predicate Places(s: World) {
    IdleOk(s.pool.conns, s.owner) && DeliveredOk(s.pool.wants, s.owner) && HandsOk(s.tasks, s.owner)
  }

  ghost predicate Waiters(s: World) {
    && WantsOk(s.pool.wants, s.server, s.caller)
    && QueueOk(s.pool.queue, s.server)
    && ServingOk(s.tasks, s.server)
    && ResolvedOk(s.pool.wants, s.server)
    && CallersOk(s.tasks, s.pool.wants, s.caller)
    && (!s.pool.waitEnabled ==> s.pool.wants == map[])
  }

  ghost predicate Parts(s: World) { Places(s) && Waiters(s) }

  ghost predicate Inv(s: World) { Parts(s) && Tally(s, 0, 0) && NotStranded(s.pool) }

  // ---- counting

  ghost predicate TasksBut(s: World, s1: World, t: TaskId) {
    forall u :: u != t ==> (u in s1.tasks <==> u in s.tasks) && (u in s.tasks ==> s1.tasks[u] == s.tasks[u])
  }

  function One(tasks: map<TaskId, Task>, t: TaskId, f: Task -> bool): int {
    if t in tasks && f(tasks[t]) then 1 else 0
  }

  lemma MatchingBut(s: World, s1: World, t: TaskId, f: Task -> bool)
    requires TasksBut(s, s1, t)
    ensures |Matching(s1.tasks, f)| - One(s1.tasks, t, f) == |Matching(s.tasks, f)| - One(s.tasks, t, f)
  {
    SizeBut(Matching(s.tasks, f), Matching(s1.tasks, f), t);
  }

  lemma SizeBut(m: set<TaskId>, m1: set<TaskId>, t: TaskId)
    requires forall u :: u != t ==> (u in m <==> u in m1)
    ensures |m1| - (if t in m1 then 1 else 0) == |m| - (if t in m then 1 else 0)
  {
    SizeWithout(m, t);
    SizeWithout(m1, t);
    assert m - {t} == m1 - {t};
  }

  lemma SizeWithout(m: set<TaskId>, t: TaskId)
    ensures |m| == |m - {t}| + (if t in m then 1 else 0)
  {
    if t in m { assert m == (m - {t}) + {t}; } else { assert m == m - {t}; }
  }

  lemma FreshIds(s: World, slots: int, cleaners: int)
    requires Tally(s, slots, cleaners)
    ensures s.nextTask !in s.tasks && s.nextConn !in s.owner && s.nextWant !in s.pool.wants
    ensures s.pool.conns != [] ==> s.pool.cleanerRun
    ensures forall t :: t in s.tasks ==> t < s.nextTask
  {
  }

  /** One goroutine changes; the sums tell whether the counts still agree. */
  lemma TallyMove(s: World, s1: World, t: TaskId, slots: int, cleaners: int, slots1: int, cleaners1: int)
    requires Tally(s, slots, cleaners) && TasksBut(s, s1, t)
    requires s1.pool.connsCount - |s1.owner| - One(s1.tasks, t, Bare) - slots1 ==
             s.pool.connsCount - |s.owner| - One(s.tasks, t, Bare) - slots
    requires One(s1.tasks, t, IsCleaner) + cleaners1 - (if s1.pool.cleanerRun then 1 else 0) ==
             One(s.tasks, t, IsCleaner) + cleaners - (if s.pool.cleanerRun then 1 else 0)
    requires s1.pool.conns != [] ==> s1.pool.cleanerRun
    requires s.nextTask <= s1.nextTask && s.nextConn <= s1.nextConn && s.nextWant <= s1.nextWant
    requires t in s1.tasks ==> t < s1.nextTask
    requires forall c :: c in s1.owner ==> c in s.owner || c < s1.nextConn
    requires forall w :: w in s1.pool.wants ==> w in s.pool.wants || w < s1.nextWant
    ensures Tally(s1, slots1, cleaners1)
  {
    MatchingBut(s, s1, t, Bare);
    MatchingBut(s, s1, t, IsCleaner);
  }

  lemma OwnerPut(owner: map<ConnId, Place>, c: ConnId, p: Place)
    ensures |owner[c := p]| == |owner| + (if c in owner then 0 else 1)
  {
    assert owner[c := p].Keys == owner.Keys + {c};
  }

  lemma OwnerDrop(owner: map<ConnId, Place>, c: ConnId)
    requires c in owner
    ensures |owner - {c}| == |owner| - 1
  {
    assert (owner - {c}).Keys == owner.Keys - {c};
  }

  lemma OwnerGrip(owner: map<ConnId, Place>, cs: seq<ConnId>, p: Place)
    requires forall c :: c in cs ==> c in owner
    ensures |Grip(owner, cs, p)| == |owner|
  {
    assert Grip(owner, cs, p).Keys == owner.Keys;
  }

  // ---- the parts of the invariant when one goroutine, connection or wantConn changes

  ghost predicate OwnerBut(s: World, s1: World, c: ConnId) {
    forall d :: d != c ==> (d in s1.owner <==> d in s.owner) && (d in s.owner ==> s1.owner[d] == s.owner[d])
  }

  ghost predicate ServerBut(s: World, s1: World, w: WantId) {
    forall v :: v != w ==> (v in s1.server <==> v in s.server) && (v in s.server ==> s1.server[v] == s.server[v])
  }

  ghost predicate WantsBut(s: World, s1: World, w: WantId) {
    forall v :: v != w ==>
      (v in s1.pool.wants <==> v in s.pool.wants) && (v in s.pool.wants ==> s1.pool.wants[v] == s.pool.wants[v])
  }

  lemma IdleMove(s: World, s1: World, c: ConnId)
    requires IdleOk(s.pool.conns, s.owner) && OwnerBut(s, s1, c) && Distinct(s1.pool.conns)
    requires forall d :: d != c ==> (d in s1.pool.conns <==> d in s.pool.conns)
    requires c in s1.pool.conns <==> At(s1.owner, c, Idle)
    ensures IdleOk(s1.pool.conns, s1.owner)
  {
    forall d ensures d in s1.pool.conns <==> At(s1.owner, d, Idle) {
      assert d in s.pool.conns <==> At(s.owner, d, Idle);
    }
  }

  lemma DeliveredMove(s: World, s1: World, c: ConnId, w: WantId)
    requires DeliveredOk(s.pool.wants, s.owner) && OwnerBut(s, s1, c) && WantsBut(s, s1, w)
    requires c in s.owner && s.owner[c].Delivered? ==> s.owner[c].w == w
    requires c in s1.owner && s1.owner[c].Delivered? ==> s1.owner[c].w == w
    requires forall d :: d != c ==> (Carries(s1.pool.wants, w, d) <==> Carries(s.pool.wants, w, d))
    requires Carries(s1.pool.wants, w, c) <==> At(s1.owner, c, Delivered(w))
    ensures DeliveredOk(s1.pool.wants, s1.owner)
  {
    forall v, d ensures Carries(s1.pool.wants, v, d) <==> At(s1.owner, d, Delivered(v)) {
      assert Carries(s.pool.wants, v, d) <==> At(s.owner, d, Delivered(v));
      assert v != w ==> (Carries(s1.pool.wants, v, d) <==> Carries(s.pool.wants, v, d));
    }
  }

  lemma HandsMove(s: World, s1: World, t: TaskId, c: ConnId)
    requires HandsOk(s.tasks, s.owner) && TasksBut(s, s1, t) && OwnerBut(s, s1, c)
    requires forall d :: d != c ==> (Holds(s1.tasks, t, d) <==> Holds(s.tasks, t, d))
    requires Holds(s1.tasks, t, c) <==> At(s1.owner, c, Hand(t))
    requires c in s.owner && s.owner[c].Hand? ==> s.owner[c].t == t
    requires c in s1.owner && s1.owner[c].Hand? ==> s1.owner[c].t == t
    requires t in s1.tasks ==> Distinct(Held(s1.tasks[t]))
    ensures HandsOk(s1.tasks, s1.owner)
  {
    forall u, d ensures Holds(s1.tasks, u, d) <==> At(s1.owner, d, Hand(u)) {
      assert Holds(s.tasks, u, d) <==> At(s.owner, d, Hand(u));
      assert u != t ==> (Holds(s1.tasks, u, d) <==> Holds(s.tasks, u, d));
    }
  }

  lemma HandsKeep(s: World, s1: World, t: TaskId)
    requires HandsOk(s.tasks, s.owner) && TasksBut(s, s1, t) && s1.owner == s.owner
    requires forall d :: Holds(s1.tasks, t, d) <==> Holds(s.tasks, t, d)
    requires t in s1.tasks ==> Distinct(Held(s1.tasks[t]))
    ensures HandsOk(s1.tasks, s1.owner)
  {
    forall u, d ensures Holds(s1.tasks, u, d) <==> At(s1.owner, d, Hand(u)) {
      assert Holds(s.tasks, u, d) <==> At(s.owner, d, Hand(u));
      assert u != t ==> (Holds(s1.tasks, u, d) <==> Holds(s.tasks, u, d));
    }
  }

  lemma ServingMove(s: World, s1: World, t: TaskId, w: WantId)
    requires ServingOk(s.tasks, s.server) && TasksBut(s, s1, t) && ServerBut(s, s1, w)
    requires forall v :: v != w ==> (Serving(s1.tasks, t, v) <==> Serving(s.tasks, t, v))
    requires Serving(s1.tasks, t, w) <==> Served(s1.server, w, By(t))
    requires w in s.server && s.server[w].By? ==> s.server[w].t == t
    requires w in s1.server && s1.server[w].By? ==> s1.server[w].t == t
    ensures ServingOk(s1.tasks, s1.server)
  {
    forall u, v ensures Serving(s1.tasks, u, v) <==> Served(s1.server, v, By(u)) {
      assert Serving(s.tasks, u, v) <==> Served(s.server, v, By(u));
      assert u != t ==> (Serving(s1.tasks, u, v) <==> Serving(s.tasks, u, v));
    }
  }

  lemma ServingKeep(s: World, s1: World, t: TaskId)
    requires ServingOk(s.tasks, s.server) && TasksBut(s, s1, t) && s1.server == s.server
    requires forall v :: Serving(s1.tasks, t, v) <==> Serving(s.tasks, t, v)
    ensures ServingOk(s1.tasks, s1.server)
  {
    forall u, v ensures Serving(s1.tasks, u, v) <==> Served(s1.server, v, By(u)) {
      assert Serving(s.tasks, u, v) <==> Served(s.server, v, By(u));
      assert u != t ==> (Serving(s1.tasks, u, v) <==> Serving(s.tasks, u, v));
    }
  }

  lemma QueueKeep(s: World, s1: World, w: WantId)
    requires QueueOk(s.pool.queue, s.server) && ServerBut(s, s1, w) && s1.pool.queue == s.pool.queue
    requires !Served(s.server, w, InQueue) && !Served(s1.server, w, InQueue)
    ensures QueueOk(s1.pool.queue, s1.server)
  {
    forall v ensures v in s1.pool.queue <==> Served(s1.server, v, InQueue) {
      assert v in s.pool.queue <==> Served(s.server, v, InQueue);
    }
  }

  lemma CallersMove(s: World, s1: World, t: TaskId, w: WantId)
    requires CallersOk(s.tasks, s.pool.wants, s.caller) && TasksBut(s, s1, t) && WantsBut(s, s1, w)
    requires s1.caller == s.caller
    requires forall v :: Calling(s1.tasks, t, v) ==> Calling(s.tasks, t, v)
    requires forall v :: Calling(s.tasks, t, v) && Wanted(s1.pool.wants, v) ==> Calling(s1.tasks, t, v)
    requires Wanted(s1.pool.wants, w) ==> Wanted(s.pool.wants, w)
    requires forall v :: Calling(s1.tasks, t, v) && Serving(s1.tasks, t, v) ==> Serving(s.tasks, t, v)
    requires forall u :: Calling(s1.tasks, u, w) && Serving(s1.tasks, u, w) ==> Untouched(s1.pool.wants, w)
    ensures CallersOk(s1.tasks, s1.pool.wants, s1.caller)
  {
    forall u, v | Calling(s1.tasks, u, v) ensures v in s1.caller && s1.caller[v] == u {
      assert Calling(s.tasks, u, v);
    }
    forall v | Wanted(s1.pool.wants, v) ensures v in s1.caller && Calling(s1.tasks, s1.caller[v], v) {
      assert Wanted(s.pool.wants, v);
      assert Calling(s.tasks, s.caller[v], v);
    }
    forall u, v | Calling(s1.tasks, u, v) && Serving(s1.tasks, u, v) ensures Untouched(s1.pool.wants, v) {
      assert Calling(s.tasks, u, v) && Serving(s.tasks, u, v);
      assert v != w ==> Untouched(s.pool.wants, v);
    }
  }

  lemma CallersKeep(s: World, s1: World, t: TaskId)
    requires CallersOk(s.tasks, s.pool.wants, s.caller) && TasksBut(s, s1, t)
    requires s1.pool.wants == s.pool.wants && s1.caller == s.caller
    requires forall v :: Calling(s1.tasks, t, v) <==> Calling(s.tasks, t, v)
    requires forall v :: Calling(s1.tasks, t, v) && Serving(s1.tasks, t, v) ==> Serving(s.tasks, t, v)
    ensures CallersOk(s1.tasks, s1.pool.wants, s1.caller)
  {
    forall u, v | Calling(s1.tasks, u, v) ensures v in s1.caller && s1.caller[v] == u {
      assert Calling(s.tasks, u, v);
    }
    forall v | Wanted(s1.pool.wants, v) ensures v in s1.caller && Calling(s1.tasks, s1.caller[v], v) {
      assert Calling(s.tasks, s.caller[v], v);
    }
    forall u, v | Calling(s1.tasks, u, v) && Serving(s1.tasks, u, v) ensures Untouched(s1.pool.wants, v) {
      assert Calling(s.tasks, u, v) && Serving(s.tasks, u, v);
    }
  }

  lemma DeliveredKeep(s: World, s1: World, w: WantId)
    requires DeliveredOk(s.pool.wants, s.owner) && s1.owner == s.owner && WantsBut(s, s1, w)
    requires forall d :: Carries(s1.pool.wants, w, d) <==> Carries(s.pool.wants, w, d)
    ensures DeliveredOk(s1.pool.wants, s1.owner)
  {
    forall v, d ensures Carries(s1.pool.wants, v, d) <==> At(s1.owner, d, Delivered(v)) {
      assert Carries(s.pool.wants, v, d) <==> At(s.owner, d, Delivered(v));
    }
  }

  lemma DeliveredSame(s: World, s1: World, c: ConnId)
    requires DeliveredOk(s.pool.wants, s.owner) && OwnerBut(s, s1, c) && s1.pool.wants == s.pool.wants
    requires c in s.owner ==> !s.owner[c].Delivered?
    requires c in s1.owner ==> !s1.owner[c].Delivered?
    ensures DeliveredOk(s1.pool.wants, s1.owner)
  {
    forall v, d ensures Carries(s1.pool.wants, v, d) <==> At(s1.owner, d, Delivered(v)) {
      assert Carries(s.pool.wants, v, d) <==> At(s.owner, d, Delivered(v));
    }
  }

  // ---- single facts

  lemma IdleIff(s: World, c: ConnId)
    requires IdleOk(s.pool.conns, s.owner)
    ensures c in s.pool.conns <==> At(s.owner, c, Idle)
  {
  }

  lemma HeldOwned(s: World, t: TaskId, c: ConnId)
    requires HandsOk(s.tasks, s.owner) && t in s.tasks && c in Held(s.tasks[t])
    ensures At(s.owner, c, Hand(t)) && Distinct(Held(s.tasks[t]))
  {
    assert Holds(s.tasks, t, c);
  }

  lemma CarriedOwned(s: World, w: WantId, c: ConnId)
    requires DeliveredOk(s.pool.wants, s.owner) && w in s.pool.wants && s.pool.wants[w].conn == Some(c)
    ensures At(s.owner, c, Delivered(w))
  {
    assert Carries(s.pool.wants, w, c);
  }

  lemma ServerKnown(s: World, t: TaskId, w: WantId)
    requires ServingOk(s.tasks, s.server) && WantsOk(s.pool.wants, s.server, s.caller)
    requires t in s.tasks && Serves(s.tasks[t]) == Some(w)
    ensures Served(s.server, w, By(t)) && w in s.pool.wants && s.pool.wants[w].Valid()
  {
    assert Serving(s.tasks, t, w);
  }

  lemma QueuedIff(s: World, w: WantId)
    requires QueueOk(s.pool.queue, s.server)
    ensures w in s.pool.queue <==> Served(s.server, w, InQueue)
  {
  }

  /** A wantConn is still untouched while the goroutine that created it also serves it. */
  lemma StillUntouched(s: World, t: TaskId, w: WantId)
    requires CallersOk(s.tasks, s.pool.wants, s.caller) && t in s.tasks
    requires Calls(s.tasks[t]) == Some(w) && Serves(s.tasks[t]) == Some(w) && w in s.pool.wants
    ensures !s.pool.wants[w].Resolved()
  {
    assert Calling(s.tasks, t, w) && Serving(s.tasks, t, w);
    assert Untouched(s.pool.wants, w);
  }

  // ---- places

  /** A connection that was idle, delivered to w, or did not exist comes into the hand of t. */
  lemma PickUpPlaces(s: World, s1: World, t: TaskId, w: WantId, c: ConnId)
    requires Places(s) && TasksBut(s, s1, t) && WantsBut(s, s1, w) && s1.owner == s.owner[c := Hand(t)]
    requires c in s.owner ==> !s.owner[c].Hand? && (s.owner[c].Delivered? ==> s.owner[c].w == w)
    requires Distinct(s1.pool.conns) && c !in s1.pool.conns
    requires forall d :: d != c ==> (d in s1.pool.conns <==> d in s.pool.conns)
    requires forall d :: Carries(s1.pool.wants, w, d) <==> d != c && Carries(s.pool.wants, w, d)
    requires t in s.tasks && Held(s.tasks[t]) == [] && t in s1.tasks && Held(s1.tasks[t]) == [c]
    ensures Places(s1)
  {
    hide IdleOk, DeliveredOk, HandsOk;
    IdleMove(s, s1, c);
    DeliveredMove(s, s1, c, w);
    HandsMove(s, s1, t, c);
  }

  /** A parcel leaves the hand of t: a connection now lies with w. */
  lemma DeliverPlaces(s: World, s1: World, t: TaskId, w: WantId, x: Parcel)
    requires Places(s) && TasksBut(s, s1, t) && WantsBut(s, s1, w) && s1.pool.conns == s.pool.conns
    requires w in s.pool.wants && !s.pool.wants[w].Resolved() && w in s1.pool.wants
    requires s1.pool.wants[w] == Deliver(s.pool.wants[w], x)
    requires t in s.tasks && Held(s.tasks[t]) == (if x.Conn? then [x.c] else [])
    requires s1.owner == if x.Conn? then s.owner[x.c := Delivered(w)] else s.owner
    requires t in s1.tasks ==> Held(s1.tasks[t]) == []
    ensures Places(s1)
  {
    hide IdleOk, DeliveredOk, HandsOk;
    if x.Conn? {
      HeldOwned(s, t, x.c);
      IdleIff(s, x.c);
      IdleDistinct(s);
      IdleMove(s, s1, x.c);
      DeliveredMove(s, s1, x.c, w);
      HandsMove(s, s1, t, x.c);
    } else {
      DeliveredKeep(s, s1, w);
      HandsKeep(s, s1, t);
    }
  }

  lemma IdleDistinct(s: World)
    requires IdleOk(s.pool.conns, s.owner)
    ensures Distinct(s.pool.conns)
  {
  }

  /** A goroutine changes without touching connections, wantConns or who serves them. */
  lemma TaskKeep(s: World, s1: World, t: TaskId)
    requires Parts(s) && TasksBut(s, s1, t)
    requires s1.owner == s.owner && s1.server == s.server && s1.caller == s.caller
    requires s1.pool.conns == s.pool.conns && s1.pool.wants == s.pool.wants && s1.pool.queue == s.pool.queue
    requires s1.pool.waitEnabled == s.pool.waitEnabled
    requires var was := if t in s.tasks then s.tasks[t] else Retiring;
      var now := if t in s1.tasks then s1.tasks[t] else Retiring;
      Held(now) == Held(was) && Serves(now) == Serves(was) && Calls(now) == Calls(was)
    ensures Parts(s1)
  {
    hide IdleOk, DeliveredOk, WantsOk, QueueOk, ServingOk, ResolvedOk, CallersOk;
    HandsKeep(s, s1, t);
    ServingKeep(s, s1, t);
    CallersKeep(s, s1, t);
  }

  // ---- the queue loses its front

  ghost predicate Suffix(q: seq<WantId>, queue: seq<WantId>) {
    |q| <= |queue| && q == queue[|queue| - |q|..]
  }

  lemma QueueDrop(s: World, q: seq<WantId>)
    requires QueueOk(s.pool.queue, s.server) && Suffix(q, s.pool.queue)
    ensures QueueOk(q, Dropped(s.server, q))
  {
    forall v ensures v in q <==> Served(Dropped(s.server, q), v, InQueue) {
      assert v in s.pool.queue <==> Served(s.server, v, InQueue);
    }
  }

  lemma ServingDrop(s: World, q: seq<WantId>)
    requires ServingOk(s.tasks, s.server)
    ensures ServingOk(s.tasks, Dropped(s.server, q))
  {
    forall u, v ensures Serving(s.tasks, u, v) <==> Served(Dropped(s.server, q), v, By(u)) {
      assert Serving(s.tasks, u, v) <==> Served(s.server, v, By(u));
    }
  }

  /** Whoever leaves the queue, other than w, no longer waits. */
  lemma ResolvedDrop(s: World, q: seq<WantId>, w: WantId, x: Server)
    requires WantsOk(s.pool.wants, s.server, s.caller) && QueueOk(s.pool.queue, s.server)
    requires ResolvedOk(s.pool.wants, s.server)
    requires forall v :: v in s.pool.queue && v !in q && v != w ==> !Waiting(s.pool.wants, v)
    requires !x.Nobody? && (w in s.pool.wants ==> s.pool.wants[w].conn.None?)
    ensures ResolvedOk(s.pool.wants, Dropped(s.server, q)[w := x])
  {
    forall v | v in s.pool.wants && v != w
      ensures Dropped(s.server, q)[v].Nobody? ==> s.pool.wants[v].Resolved()
    {
      assert v in s.pool.queue <==> Served(s.server, v, InQueue);
      assert s.pool.wants[v].Valid();
    }
  }

  lemma KeysDropped(s: World, q: seq<WantId>, w: WantId, x: Server)
    requires WantsOk(s.pool.wants, s.server, s.caller) && w in s.server
    ensures WantsOk(s.pool.wants, Dropped(s.server, q)[w := x], s.caller)
  {
  }

  /** serveWaiterLocked finding a waiter: it leaves the queue and gets a dialing goroutine. */
  function Serve(s: World, q: seq<WantId>, w: WantId): World {
    SpawnDial(s.(pool := s.pool.(queue := q), server := Dropped(s.server, q)), w)
  }

  lemma ServeKeeps(s: World, q: seq<WantId>, w: WantId)
    requires Parts(s) && s.nextTask !in s.tasks
    requires ServeWaiter(s.pool.wants, s.pool.queue) == (q, Some(w))
    ensures Parts(Serve(s, q, w))
  {
    hide IdleOk, DeliveredOk, HandsOk, WantsOk, QueueOk, ServingOk, ResolvedOk, CallersOk;
    var s1 := Serve(s, q, w);
    ServeFront(s, q, w);
    ServeServers(s, q, w);
    HandsKeep(s, s1, s.nextTask);
    CallersKeep(s, s1, s.nextTask);
    ResolvedDrop(s, q, w, By(s.nextTask));
    KeysDropped(s, q, w, By(s.nextTask));
  }

  lemma ServeFront(s: World, q: seq<WantId>, w: WantId)
    requires QueueOk(s.pool.queue, s.server) && WantsOk(s.pool.wants, s.server, s.caller)
    requires ServeWaiter(s.pool.wants, s.pool.queue) == (q, Some(w))
    ensures Suffix(q, s.pool.queue) && w in s.pool.queue && w !in q && Served(s.server, w, InQueue)
    ensures w in s.pool.wants && s.pool.wants[w].conn.None?
    ensures forall v :: v in s.pool.queue && v !in q && v != w ==> !Waiting(s.pool.wants, v)
  {
    var n := |s.pool.queue| - |q| - 1;
    ServeWaiterShrinks(s.pool.wants, s.pool.queue);
    assert w in s.pool.queue && w in s.pool.wants && s.pool.wants[w].Valid();
    forall i | n < i < |s.pool.queue| ensures s.pool.queue[i] in q { assert s.pool.queue[i] == q[i - n - 1]; }
    forall v | v in s.pool.queue && v !in q && v != w ensures !Waiting(s.pool.wants, v) {
      var i :| 0 <= i < |s.pool.queue| && s.pool.queue[i] == v;
    }
  }

  lemma ServeServers(s: World, q: seq<WantId>, w: WantId)
    requires QueueOk(s.pool.queue, s.server) && ServingOk(s.tasks, s.server) && s.nextTask !in s.tasks
    requires Suffix(q, s.pool.queue) && Served(s.server, w, InQueue) && w !in q
    ensures var s1 := Serve(s, q, w);
      QueueOk(s1.pool.queue, s1.server) && ServingOk(s1.tasks, s1.server)
  {
    hide QueueOk, ServingOk;
    var s0 := s.(pool := s.pool.(queue := q), server := Dropped(s.server, q));
    QueueDrop(s, q);
    ServingDrop(s, q);
    ServingMove(s0, Serve(s, q, w), s.nextTask, w);
    QueueKeep(s0, Serve(s, q, w), w);
  }

  // ---- AcquireConn

  lemma PopFacts(s: World, p: Pool, c: ConnId)
    requires IdleOk(s.pool.conns, s.owner) && s.pool.conns != []
    requires (c, p.conns) == PopIdle(s.pool.conns, s.pool.strategy.LIFO?)
    ensures At(s.owner, c, Idle) && Distinct(p.conns) && c !in p.conns
    ensures forall d :: d != c ==> (d in p.conns <==> d in s.pool.conns)
  {
    assert c in s.pool.conns;
  }

  /** An idle connection comes into the hand of t, which changes nothing for waiters. */
  lemma PopKeeps(s: World, s1: World, t: TaskId, p: Pool, c: ConnId)
    requires Inv(s) && t in s.tasks && s.pool.conns != [] && p == s.pool.(conns := p.conns)
    requires PopIdle(s.pool.conns, s.pool.strategy.LIFO?) == (c, p.conns)
    requires t in s1.tasks && s1 == Put(s.(pool := p, owner := s.owner[c := Hand(t)]), t, s1.tasks[t])
    requires Held(s.tasks[t]) == [] && !Bare(s.tasks[t]) && !s.tasks[t].Cleaner?
    requires Held(s1.tasks[t]) == [c] && !Bare(s1.tasks[t]) && !s1.tasks[t].Cleaner?
    requires Serves(s1.tasks[t]) == Serves(s.tasks[t]) && Calls(s1.tasks[t]) == Calls(s.tasks[t])
    ensures Inv(s1)
  {
    hide IdleOk, DeliveredOk, HandsOk, WantsOk, QueueOk, ServingOk, ResolvedOk, CallersOk, Tally;
    FreshIds(s, 0, 0);
    PopFacts(s, p, c);
    OwnerPut(s.owner, c, Hand(t));
    TallyMove(s, s1, t, 0, 0, 0, 0);
    PickUpPlaces(s, s1, t, s.nextWant, c);
    ServingKeep(s, s1, t);
    CallersKeep(s, s1, t);
  }

  lemma AcquireReserved(s: World, t: TaskId)
    requires Inv(s) && t in s.tasks && s.tasks[t].Acquiring?
    requires AcquireSection(s.pool, s.tasks[t].connectionClose).1.Reserved?
    ensures Inv(AcquireStep(s, t))
  {
    hide Parts, Tally;
    FreshIds(s, 0, 0);
    var (p, grant, start) := AcquireSection(s.pool, s.tasks[t].connectionClose);
    var s0 := Put(s.(pool := p), t, Dialing);
    TaskKeep(s, s0, t);
    TallyMove(s, s0, t, 0, 0, 0, if start then 1 else 0);
    CleanerSpawn(s0, start);
  }

  /** A section that set the flag starts the cleaner. */
  lemma CleanerSpawn(s: World, start: bool)
    requires Parts(s) && Tally(s, 0, if start then 1 else 0)
    ensures Parts(SpawnCleaner(s, start)) && Tally(SpawnCleaner(s, start), 0, 0)
    ensures SpawnCleaner(s, start).pool == s.pool
  {
    hide Parts, Tally;
    FreshIds(s, 0, if start then 1 else 0);
    if start {
      var s1 := Spawn(s, Cleaner(Scanning));
      TallyMove(s, s1, s.nextTask, 0, 1, 0, 0);
      TaskKeep(s, s1, s.nextTask);
    }
  }

  lemma AcquireRefused(s: World, t: TaskId)
    requires Inv(s) && t in s.tasks && s.tasks[t].Acquiring?
    requires AcquireSection(s.pool, s.tasks[t].connectionClose).1.Refused?
    ensures Inv(AcquireStep(s, t))
  {
    hide Parts, Tally;
    FreshIds(s, 0, 0);
    var s1 := AcquireStep(s, t);
    TallyMove(s, s1, t, 0, 0, 0, 0);
    if s.pool.waitEnabled { NewWaiter(s, s1, t, s.nextWant); } else { TaskKeep(s, s1, t); }
  }

  lemma NewWaiter(s: World, s1: World, t: TaskId, w: WantId)
    requires Parts(s) && TasksBut(s, s1, t) && s.pool.waitEnabled && w !in s.pool.wants
    requires t in s.tasks && s.tasks[t].Acquiring? && t in s1.tasks && s1.tasks[t].Queueing? && s1.tasks[t].w == w
    requires s1.pool == s.pool.(wants := s.pool.wants[w := FreshWant]) && s1.server == s.server[w := By(t)]
    requires s1.caller == s.caller[w := t] && s1.owner == s.owner
    ensures Parts(s1)
  {
    hide IdleOk, DeliveredOk, HandsOk, QueueOk, ServingOk, CallersOk;
    DeliveredKeep(s, s1, w);
    HandsKeep(s, s1, t);
    ServingMove(s, s1, t, w);
    QueueKeep(s, s1, w);
    CallersNew(s, s1, t, w);
  }

  lemma CallersNew(s: World, s1: World, t: TaskId, w: WantId)
    requires CallersOk(s.tasks, s.pool.wants, s.caller) && TasksBut(s, s1, t)
    requires w !in s.pool.wants && w !in s.caller && s1.caller == s.caller[w := t]
    requires s1.pool.wants == s.pool.wants[w := FreshWant]
    requires t in s.tasks && Calls(s.tasks[t]).None? && t in s1.tasks && Calls(s1.tasks[t]) == Some(w)
    ensures CallersOk(s1.tasks, s1.pool.wants, s1.caller)
  {
    forall u, v | Calling(s1.tasks, u, v) ensures v in s1.caller && s1.caller[v] == u {
      assert u != t ==> Calling(s.tasks, u, v);
    }
    forall v | Wanted(s1.pool.wants, v) ensures v in s1.caller && Calling(s1.tasks, s1.caller[v], v) {
      if v != w {
        assert Wanted(s.pool.wants, v);
        assert Calling(s.tasks, s.caller[v], v);
      }
    }
    forall u, v | Calling(s1.tasks, u, v) && Serving(s1.tasks, u, v) ensures Untouched(s1.pool.wants, v) {
      if u != t { assert Calling(s.tasks, u, v) && Serving(s.tasks, u, v); }
    }
  }

  lemma AcquireKeeps(s: World, t: TaskId)
    requires Inv(s) && t in s.tasks && s.tasks[t].Acquiring?
    ensures Inv(AcquireStep(s, t))
  {
    hide Parts, Tally;
    FreshIds(s, 0, 0);
    var (p, grant, start) := AcquireSection(s.pool, s.tasks[t].connectionClose);
    match grant
    case Got(c) => PopKeeps(s, AcquireStep(s, t), t, p, c);
    case Reserved => AcquireReserved(s, t);
    case Refused => AcquireRefused(s, t);
    case BadStrategy =>
      TallyMove(s, AcquireStep(s, t), t, 0, 0, 0, 0);
      TaskKeep(s, AcquireStep(s, t), t);
  }

  // ---- queueForIdle

  /** The goroutine that serves w changes from t to the new n. */
  lemma ServingPass(s: World, s1: World, t: TaskId, n: TaskId, w: WantId)
    requires ServingOk(s.tasks, s.server) && Served(s.server, w, By(t)) && Serving(s.tasks, t, w)
    requires n !in s.tasks && t in s1.tasks && Serves(s1.tasks[t]).None? && Serving(s1.tasks, n, w)
    requires TasksBut(s, s1.(tasks := s1.tasks - {n}), t)
    requires s1.server == s.server[w := By(n)]
    ensures ServingOk(s1.tasks, s1.server)
  {
    forall u, v ensures Serving(s1.tasks, u, v) <==> Served(s1.server, v, By(u)) {
      assert Serving(s.tasks, u, v) <==> Served(s.server, v, By(u));
      if u != t && u != n {
        assert u in (s1.tasks - {n}) <==> u in s1.tasks;
        assert Serving(s1.tasks, u, v) <==> Serving(s.tasks, u, v);
      }
    }
  }

  lemma QueueReserved(s: World, t: TaskId)
    requires Inv(s) && t in s.tasks && s.tasks[t].Queueing?
    requires QueueSection(s.pool, s.tasks[t].w, s.tasks[t].connectionClose).1.Reserved?
    ensures Inv(QueueStep(s, t))
  {
    hide Parts, Tally;
    FreshIds(s, 0, 0);
    var w := s.tasks[t].w;
    var (p, grant, start) := QueueSection(s.pool, w, s.tasks[t].connectionClose);
    var s0 := Put(s.(pool := p), t, Awaiting(w));
    TallyMove(s, s0, t, 0, 0, 1, if start then 1 else 0);
    TallyMove(s0, SpawnDial(s0, w), s.nextTask, 1, if start then 1 else 0, 0, if start then 1 else 0);
    DialHandOff(s, s0, t, w);
    CleanerSpawn(SpawnDial(s0, w), start);
  }

  lemma DialHandOff(s: World, s0: World, t: TaskId, w: WantId)
    requires Parts(s) && t in s.tasks && s.tasks[t].Queueing? && s.tasks[t].w == w
    requires s.nextTask !in s.tasks && s0 == Put(s.(pool := s0.pool), t, Awaiting(w))
    requires s0.pool == s.pool.(connsCount := s0.pool.connsCount, cleanerRun := s0.pool.cleanerRun)
    ensures Parts(SpawnDial(s0, w))
  {
    hide IdleOk, DeliveredOk, HandsOk, QueueOk, ServingOk, CallersOk;
    var s1, n := SpawnDial(s0, w), s.nextTask;
    ServerKnown(s, t, w);
    StillUntouched(s, t, w);
    HandsKeep(s, s0, t);
    HandsKeep(s0, s1, n);
    assert s1.tasks - {n} == s0.tasks;
    ServingPass(s, s1, t, n, w);
    QueueKeep(s, s1, w);
    CallersKeep(s, s0, t);
    CallersKeep(s0, s1, n);
  }

  lemma QueueRefused(s: World, t: TaskId)
    requires Inv(s) && t in s.tasks && s.tasks[t].Queueing?
    requires QueueSection(s.pool, s.tasks[t].w, s.tasks[t].connectionClose).1.Refused?
    ensures Inv(QueueStep(s, t))
  {
    hide Parts, Tally;
    FreshIds(s, 0, 0);
    TallyMove(s, QueueStep(s, t), t, 0, 0, 0, 0);
    ParkParts(s, QueueStep(s, t), t, s.tasks[t].w);
  }

  lemma ParkParts(s: World, s1: World, t: TaskId, w: WantId)
    requires Parts(s) && s1.owner == s.owner && s1.caller == s.caller
    requires t in s.tasks && s.tasks[t].Queueing? && s.tasks[t].w == w && s1.tasks == s.tasks[t := Awaiting(w)]
    requires var q := ClearFront(s.pool.wants, s.pool.queue) + [w];
      s1.pool == s.pool.(queue := q) && s1.server == Dropped(s.server, q)[w := InQueue]
    ensures Parts(s1)
  {
    hide IdleOk, DeliveredOk, HandsOk, WantsOk, QueueOk, ServingOk, ResolvedOk, CallersOk;
    ServerKnown(s, t, w);
    StillUntouched(s, t, w);
    QueuedIff(s, w);
    ParkServers(s, s1, t, w);
    HandsKeep(s, s1, t);
    CallersKeep(s, s1, t);
  }

  lemma ParkServers(s: World, s1: World, t: TaskId, w: WantId)
    requires WantsOk(s.pool.wants, s.server, s.caller) && QueueOk(s.pool.queue, s.server)
    requires ServingOk(s.tasks, s.server) && ResolvedOk(s.pool.wants, s.server)
    requires Served(s.server, w, By(t)) && w !in s.pool.queue && w in s.pool.wants && s.pool.wants[w].conn.None?
    requires TasksBut(s, s1, t) && t in s.tasks && Serves(s.tasks[t]) == Some(w) && t in s1.tasks
    requires Serves(s1.tasks[t]).None?
    requires var q := ClearFront(s.pool.wants, s.pool.queue) + [w];
      s1.pool.queue == q && s1.pool.wants == s.pool.wants &&
      s1.server == Dropped(s.server, q)[w := InQueue] && s1.caller == s.caller
    ensures WantsOk(s1.pool.wants, s1.server, s1.caller) && QueueOk(s1.pool.queue, s1.server)
    ensures ServingOk(s1.tasks, s1.server) && ResolvedOk(s1.pool.wants, s1.server)
  {
    hide WantsOk, QueueOk, ServingOk, ResolvedOk;
    var q := ClearFront(s.pool.wants, s.pool.queue);
    var s0 := s.(pool := s.pool.(queue := q), server := Dropped(s.server, q));
    DroppedAppend(s.server, q, w);
    ClearFrontDrops(s.pool.wants, s.pool.queue);
    ParkQueue(s, q, w);
    ResolvedDrop(s, q, w, InQueue);
    KeysDropped(s, q, w, InQueue);
    ServingDrop(s, q);
    ServingMove(s0, s1, t, w);
  }

  lemma ClearFrontDrops(wants: map<WantId, Want>, queue: seq<WantId>)
    ensures var q := ClearFront(wants, queue);
      Suffix(q, queue) && forall v :: v in queue && v !in q ==> !Waiting(wants, v)
  {
    ClearFrontShrinks(wants, queue);
    var q := ClearFront(wants, queue);
    var n := |queue| - |q|;
    forall i | n <= i < |queue| ensures queue[i] in q { assert queue[i] == q[i - n]; }
    forall v | v in queue && v !in q ensures !Waiting(wants, v) {
      var i :| 0 <= i < |queue| && queue[i] == v;
    }
  }

  lemma DroppedAppend(server: map<WantId, Server>, q: seq<WantId>, w: WantId)
    requires w in server && !server[w].InQueue?
    ensures Dropped(server, q + [w]) == Dropped(server, q)
  {
  }

  lemma ParkQueue(s: World, q: seq<WantId>, w: WantId)
    requires QueueOk(s.pool.queue, s.server) && Suffix(q, s.pool.queue) && w !in s.pool.queue
    ensures QueueOk(q + [w], Dropped(s.server, q)[w := InQueue])
  {
    QueueDrop(s, q);
    forall v ensures v in q + [w] <==> Served(Dropped(s.server, q)[w := InQueue], v, InQueue) {
      assert v in q <==> Served(Dropped(s.server, q), v, InQueue);
    }
  }

  lemma QueueKeeps(s: World, t: TaskId)
    requires Inv(s) && t in s.tasks && s.tasks[t].Queueing?
    ensures Inv(QueueStep(s, t))
  {
    hide Parts, Tally;
    FreshIds(s, 0, 0);
    var (p, grant, start) := QueueSection(s.pool, s.tasks[t].w, s.tasks[t].connectionClose);
    match grant
    case Got(c) => PopKeeps(s, QueueStep(s, t), t, p, c);
    case Reserved => QueueReserved(s, t);
    case Refused => QueueRefused(s, t);
    case BadStrategy =>
      TallyMove(s, QueueStep(s, t), t, 0, 0, 0, 0);
      TaskKeep(s, QueueStep(s, t), t);
  }

  // ---- resolving a wantConn

  lemma HandOverKeeps(s: World, t: TaskId)
    requires Inv(s) && t in s.tasks && s.tasks[t].Handing?
    ensures Inv(HandOverStep(s, t))
  {
    hide Parts, Tally;
    FreshIds(s, 0, 0);
    var w, x := s.tasks[t].w, s.tasks[t].parcel;
    HandOverReady(s, t);
    if x.Conn? { OwnerPut(s.owner, x.c, Delivered(w)); }
    TallyMove(s, HandOverStep(s, t), t, 0, 0, 0, 0);
    HandOverParts(s, t);
  }

  /** A wantConn is still untouched when queueForIdle hands it a connection. */
  lemma HandOverReady(s: World, t: TaskId)
    requires Parts(s) && t in s.tasks && s.tasks[t].Handing?
    ensures s.tasks[t].w in s.pool.wants && !s.pool.wants[s.tasks[t].w].Resolved() && s.pool.wants[s.tasks[t].w].Valid()
    ensures s.tasks[t].parcel.Conn? ==> s.tasks[t].parcel.c in s.owner
  {
    hide IdleOk, DeliveredOk, HandsOk, WantsOk, QueueOk, ServingOk, ResolvedOk, CallersOk;
    ServerKnown(s, t, s.tasks[t].w);
    StillUntouched(s, t, s.tasks[t].w);
    if s.tasks[t].parcel.Conn? { HeldOwned(s, t, s.tasks[t].parcel.c); }
  }

  lemma HandOverParts(s: World, t: TaskId)
    requires Parts(s) && t in s.tasks && s.tasks[t].Handing?
    ensures Parts(HandOverStep(s, t))
  {
    hide Places, Waiters;
    HandOverReady(s, t);
    ResolveWaiter(s, HandOverStep(s, t), t, s.tasks[t].w);
    DeliverPlaces(s, HandOverStep(s, t), t, s.tasks[t].w, s.tasks[t].parcel);
  }

  /** The goroutine t that serves w resolves it. */
  lemma ResolveWaiter(s: World, s1: World, t: TaskId, w: WantId)
    requires Waiters(s) && TasksBut(s, s1, t) && t in s.tasks && Serves(s.tasks[t]) == Some(w)
    requires s1.server == s.server[w := Nobody] && s1.caller == s.caller && s1.pool == s.pool.(wants := s1.pool.wants)
    requires w in s.pool.wants && w in s1.pool.wants && s1.pool.wants == s.pool.wants[w := s1.pool.wants[w]]
    requires s1.pool.wants[w].Valid() && s1.pool.wants[w].Resolved()
    requires s.pool.wants[w].Resolved() ==> s1.pool.wants[w] == s.pool.wants[w]
    requires t in s1.tasks ==> Serves(s1.tasks[t]).None?
    requires (if t in s1.tasks then Calls(s1.tasks[t]) else None) == Calls(s.tasks[t])
    ensures Waiters(s1)
  {
    hide WantsOk, QueueOk, ServingOk, ResolvedOk, CallersOk;
    ServerKnown(s, t, w);
    WantsPut(s, s1, w);
    ServingMove(s, s1, t, w);
    QueueKeep(s, s1, w);
    NobodyServes(s1, w);
    CallersMove(s, s1, t, w);
  }

  /** One wantConn changes, in step with who serves it. */
  lemma WantsPut(s: World, s1: World, w: WantId)
    requires WantsOk(s.pool.wants, s.server, s.caller) && ResolvedOk(s.pool.wants, s.server)
    requires w in s.pool.wants && w in s1.pool.wants && s1.pool.wants == s.pool.wants[w := s1.pool.wants[w]]
    requires s1.pool.wants[w].Valid() && s1.pool.wants[w].Resolved() && s1.caller == s.caller
    requires s1.server == s.server[w := Nobody] || (s1.server == s.server && s1.pool.wants[w].conn.None?)
    ensures WantsOk(s1.pool.wants, s1.server, s1.caller) && ResolvedOk(s1.pool.wants, s1.server)
  {
  }

  lemma NobodyServes(s: World, w: WantId)
    requires ServingOk(s.tasks, s.server) && w in s.server && !s.server[w].By?
    ensures forall u :: !Serving(s.tasks, u, w)
  {
    forall u ensures !Serving(s.tasks, u, w) { assert !Served(s.server, w, By(u)); }
  }

  lemma DeliverKeeps(s: World, t: TaskId)
    requires Inv(s) && t in s.tasks && s.tasks[t].DeliveringTo?
    ensures Inv(DeliverStep(s, t))
  {
    hide Parts, Tally;
    FreshIds(s, 0, 0);
    DeliverParts(s, t);
    if s.tasks[t].parcel.Conn? { OwnerPut(s.owner, s.tasks[t].parcel.c, Delivered(s.tasks[t].w)); }
    TallyMove(s, DeliverStep(s, t), t, 0, 0, 0, 0);
  }

  lemma DeliverParts(s: World, t: TaskId)
    requires Parts(s) && t in s.tasks && s.tasks[t].DeliveringTo?
    ensures Parts(DeliverStep(s, t))
    ensures s.tasks[t].w in s.pool.wants && (s.tasks[t].parcel.Conn? ==> s.tasks[t].parcel.c in s.owner)
  {
    hide IdleOk, DeliveredOk, HandsOk, WantsOk, QueueOk, ServingOk, ResolvedOk, CallersOk;
    ServerKnown(s, t, s.tasks[t].w);
    if s.tasks[t].parcel.Conn? { HeldOwned(s, t, s.tasks[t].parcel.c); }
    hide Waiters, Places;
    ResolveWaiter(s, DeliverStep(s, t), t, s.tasks[t].w);
    DeliverStepPlaces(s, t);
  }

  lemma DeliverStepPlaces(s: World, t: TaskId)
    requires Places(s) && t in s.tasks && s.tasks[t].DeliveringTo? && s.tasks[t].w in s.pool.wants
    ensures Places(DeliverStep(s, t))
  {
    hide IdleOk, DeliveredOk, HandsOk;
    var w, s1 := s.tasks[t].w, DeliverStep(s, t);
    if s.pool.wants[w].Resolved() {
      DeliveredKeep(s, s1, w);
      HandsKeep(s, s1, t);
    } else {
      DeliverPlaces(s, s1, t, w, s.tasks[t].parcel);
    }
  }

  lemma TakeKeeps(s: World, t: TaskId)
    requires Inv(s) && t in s.tasks && s.tasks[t].Awaiting?
    ensures Inv(TakeStep(s, t))
  {
    hide Parts, Tally;
    FreshIds(s, 0, 0);
    var w, s1 := s.tasks[t].w, TakeStep(s, t);
    if w in s.pool.wants && s.pool.wants[w].closes != 0 {
      TakeParts(s, t);
      if s.pool.wants[w].conn.Some? { OwnerPut(s.owner, s.pool.wants[w].conn.value, Hand(t)); }
      TallyMove(s, s1, t, 0, 0, 0, 0);
    }
  }

  lemma TakeParts(s: World, t: TaskId)
    requires Parts(s) && t in s.tasks && s.tasks[t].Awaiting?
    requires s.tasks[t].w in s.pool.wants && s.pool.wants[s.tasks[t].w].closes != 0
    ensures Parts(TakeStep(s, t))
    ensures s.pool.wants[s.tasks[t].w].conn.Some? ==> s.pool.wants[s.tasks[t].w].conn.value in s.owner
  {
    hide Places, Waiters;
    var w, s1 := s.tasks[t].w, TakeStep(s, t);
    match s.pool.wants[w].conn
    case None => TaskKeep(s, s1, t);
    case Some(c) =>
      TakePlaces(s, s1, t, w, c);
      TakeWaiters(s, s1, t, w);
  }

  /** A delivered connection is picked up by the goroutine that waited for it. */
  lemma TakePlaces(s: World, s1: World, t: TaskId, w: WantId, c: ConnId)
    requires Places(s) && TasksBut(s, s1, t) && WantsBut(s, s1, w) && s1.owner == s.owner[c := Hand(t)]
    requires w in s.pool.wants && s.pool.wants[w].conn == Some(c) && s1.pool.conns == s.pool.conns
    requires w in s1.pool.wants ==> s1.pool.wants[w].conn.None?
    requires t in s.tasks && Held(s.tasks[t]) == [] && t in s1.tasks && Held(s1.tasks[t]) == [c]
    ensures Places(s1) && c in s.owner
  {
    hide IdleOk, DeliveredOk, HandsOk;
    CarriedOwned(s, w, c);
    IdleIff(s, c);
    IdleDistinct(s);
    PickUpPlaces(s, s1, t, w, c);
  }

  lemma TakeWaiters(s: World, s1: World, t: TaskId, w: WantId)
    requires Waiters(s) && TasksBut(s, s1, t) && w in s.pool.wants && s.pool.wants[w].conn.Some?
    requires s1.pool == s.pool.(wants := s.pool.wants - {w}) && s1.server == s.server - {w}
    requires s1.caller == s.caller - {w}
    requires t in s.tasks && s.tasks[t] == Awaiting(w) && t in s1.tasks && s1.tasks[t].Leased?
    ensures Waiters(s1)
  {
    hide QueueOk, ServingOk, CallersOk;
    assert Served(s.server, w, Nobody);
    ServingMove(s, s1, t, w);
    QueueKeep(s, s1, w);
    CallersTaken(s, s1, t, w);
  }

  lemma CallersTaken(s: World, s1: World, t: TaskId, w: WantId)
    requires CallersOk(s.tasks, s.pool.wants, s.caller) && TasksBut(s, s1, t)
    requires s1.pool.wants == s.pool.wants - {w} && s1.caller == s.caller - {w}
    requires t in s.tasks && s.tasks[t] == Awaiting(w) && t in s1.tasks && s1.tasks[t].Leased?
    ensures CallersOk(s1.tasks, s1.pool.wants, s1.caller)
  {
    assert Calling(s.tasks, t, w);
    forall u, v | Calling(s1.tasks, u, v) ensures v in s1.caller && s1.caller[v] == u {
      assert Calling(s.tasks, u, v);
    }
    forall v | Wanted(s1.pool.wants, v) ensures v in s1.caller && Calling(s1.tasks, s1.caller[v], v) {
      assert Wanted(s.pool.wants, v);
      assert Calling(s.tasks, s.caller[v], v);
    }
    forall u, v | Calling(s1.tasks, u, v) && Serving(s1.tasks, u, v) ensures Untouched(s1.pool.wants, v) {
      assert Calling(s.tasks, u, v) && Serving(s.tasks, u, v);
      assert Untouched(s.pool.wants, v);
    }
  }

  lemma CancelKeeps(s: World, t: TaskId)
    requires Inv(s) && t in s.tasks && s.tasks[t].Cancelling?
    ensures Inv(CancelStep(s, t))
  {
    hide Parts, Tally;
    FreshIds(s, 0, 0);
    var w, s1 := s.tasks[t].w, CancelStep(s, t);
    if w in s.pool.wants {
      CancelParts(s, t);
      if s.pool.wants[w].conn.Some? { OwnerPut(s.owner, s.pool.wants[w].conn.value, Hand(t)); }
      TallyMove(s, s1, t, 0, 0, 0, 0);
    }
  }

  lemma CancelParts(s: World, t: TaskId)
    requires Parts(s) && t in s.tasks && s.tasks[t].Cancelling? && s.tasks[t].w in s.pool.wants
    ensures Parts(CancelStep(s, t))
    ensures s.pool.wants[s.tasks[t].w].conn.Some? ==> s.pool.wants[s.tasks[t].w].conn.value in s.owner
  {
    hide Places, Waiters;
    CancelWaiters(s, CancelStep(s, t), t, s.tasks[t].w);
    CancelPlaces(s, t);
  }

  lemma CancelPlaces(s: World, t: TaskId)
    requires Places(s) && t in s.tasks && s.tasks[t].Cancelling? && s.tasks[t].w in s.pool.wants
    ensures Places(CancelStep(s, t))
    ensures s.pool.wants[s.tasks[t].w].conn.Some? ==> s.pool.wants[s.tasks[t].w].conn.value in s.owner
  {
    hide IdleOk, DeliveredOk, HandsOk;
    var w, s1 := s.tasks[t].w, CancelStep(s, t);
    match s.pool.wants[w].conn
    case None =>
      DeliveredKeep(s, s1, w);
      HandsKeep(s, s1, t);
    case Some(c) => TakePlaces(s, s1, t, w, c);
  }

  lemma CancelWaiters(s: World, s1: World, t: TaskId, w: WantId)
    requires Waiters(s) && TasksBut(s, s1, t) && w in s.pool.wants && t in s.tasks && s.tasks[t] == Cancelling(w)
    requires s1.pool == s.pool.(wants := s.pool.wants[w := Cancel(s.pool.wants[w])])
    requires s1.server == s.server && s1.caller == s.caller
    requires t in s1.tasks ==> s1.tasks[t].Releasing?
    ensures Waiters(s1)
  {
    hide QueueOk, ServingOk, CallersOk;
    assert s.pool.wants[w].Valid();
    WantsPut(s, s1, w);
    hide WantsOk, ResolvedOk;
    ServingKeep(s, s1, t);
    CallerGone(s, s1, t, w);
    CallersMove(s, s1, t, w);
  }

  lemma CallerGone(s: World, s1: World, t: TaskId, w: WantId)
    requires CallersOk(s.tasks, s.pool.wants, s.caller) && TasksBut(s, s1, t) && Calling(s.tasks, t, w)
    requires t in s1.tasks ==> Calls(s1.tasks[t]).None?
    ensures forall u :: !Calling(s1.tasks, u, w)
  {
    forall u ensures !Calling(s1.tasks, u, w) {
      if Calling(s1.tasks, u, w) { assert Calling(s.tasks, u, w); }
    }
  }

  lemma DialOkKeeps(s: World, t: TaskId)
    requires Inv(s) && t in s.tasks
    ensures Inv(DialOkStep(s, t))
  {
    hide Parts, Tally;
    FreshIds(s, 0, 0);
    if s.tasks[t].Dialing? || s.tasks[t].DialingFor? {
      OwnerPut(s.owner, s.nextConn, Hand(t));
      TallyMove(s, DialOkStep(s, t), t, 0, 0, 0, 0);
        DialOkParts(s, t);
    }
  }

  lemma DialOkParts(s: World, t: TaskId)
    requires Parts(s) && t in s.tasks && (s.tasks[t].Dialing? || s.tasks[t].DialingFor?)
    requires s.nextConn !in s.owner && s.nextWant !in s.pool.wants
    ensures Parts(DialOkStep(s, t))
  {
    hide IdleOk, DeliveredOk, HandsOk, WantsOk, QueueOk, ServingOk, ResolvedOk, CallersOk;
    var s1, c := DialOkStep(s, t), s.nextConn;
    IdleIff(s, c);
    IdleDistinct(s);
    PickUpPlaces(s, s1, t, s.nextWant, c);
    ServingKeep(s, s1, t);
    CallersKeep(s, s1, t);
  }

  // ---- releaseConn

  lemma ReleaseKeeps(s: World, t: TaskId)
    requires Inv(s) && t in s.tasks && s.tasks[t].Releasing?
    ensures Inv(ReleaseStep(s, t))
  {
    hide Offer, Parts, Tally;
    FreshIds(s, 0, 0);
    var c := s.tasks[t].c;
    var (p, taken, start) := ReleaseSection(s.pool, c, {});
    OwnerPut(s.owner, c, if taken.Some? then Delivered(taken.value) else Idle);
    ReleaseShape(s, t);
    TallyMove(s, Released(s, t), t, 0, 0, 0, if start then 1 else 0);
    if taken.Some? { ReleaseTaken(s, t, taken.value); } else { ReleaseIdle(s, t); }
    CleanerSpawn(Released(s, t), start);
  }

  /** ReleaseStep before the cleaner starts. */
  function Released(s: World, t: TaskId): World
    requires t in s.tasks && s.tasks[t].Releasing?
  {
    var c := s.tasks[t].c;
    var (p, taken, start) := ReleaseSection(s.pool, c, {});
    End(s.(pool := p, server := Dropped(s.server, p.queue),
           owner := s.owner[c := if taken.Some? then Delivered(taken.value) else Idle]), t)
  }

  lemma ReleaseShape(s: World, t: TaskId)
    requires Parts(s) && NotStranded(s.pool) && t in s.tasks && s.tasks[t].Releasing?
    ensures var p := ReleaseSection(s.pool, s.tasks[t].c, {}).0;
      p.wants.Keys == s.pool.wants.Keys && NotStranded(p) && p.connsCount == s.pool.connsCount
    ensures s.tasks[t].c in s.owner
  {
    hide ReleaseSection, IdleOk, DeliveredOk, HandsOk, ServingOk, ResolvedOk, CallersOk;
    QueueEmptyWithoutWait(s);
    SectionShape(s.pool, s.tasks[t].c);
    HeldOwned(s, t, s.tasks[t].c);
  }

  lemma SectionShape(p: Pool, c: ConnId)
    requires (forall w :: w in p.wants ==> p.wants[w].Valid()) && Distinct(p.queue)
    requires NotStranded(p) && (!p.waitEnabled ==> p.queue == [])
    ensures var p1 := ReleaseSection(p, c, {}).0;
      p1.wants.Keys == p.wants.Keys && NotStranded(p1) && p1.connsCount == p.connsCount
  {
    OfferShape(p, c);
    hide Offer;
    var (p1, taken, start) := ReleaseSection(p, c, {});
    assert p1.queue != [] ==> p.queue != [];
    if taken.Some? { assert p1.wants.Keys == p.wants.Keys + {taken.value}; }
  }

  lemma OfferShape(p: Pool, c: ConnId)
    requires (forall w :: w in p.wants ==> p.wants[w].Valid()) && Distinct(p.queue)
    ensures var (p1, taken, start) := ReleaseSection(p, c, {});
      && p1.connsCount == p.connsCount && Cap(p1) == Cap(p)
      && Suffix(p1.queue, p.queue)
      && (taken.None? && p.waitEnabled ==> p1.queue == [])
      && (taken.None? ==> p1.wants == p.wants && p1.conns == p.conns + [c])
      && (taken.Some? ==>
            && taken.value in p.wants && !p.wants[taken.value].Resolved()
            && taken.value in p.queue && taken.value !in p1.queue
            && p1.conns == p.conns && p1.wants == p.wants[taken.value := Deliver(p.wants[taken.value], Conn(c))])
      && (forall v :: v in p.queue && v !in p1.queue && v in p1.wants ==> p1.wants[v].Resolved())
  {
    if p.waitEnabled {
      OfferEffect(p.wants, p.queue, c, {});
    }
  }

  lemma DropServers(s: World, t: TaskId, q: seq<WantId>)
    requires QueueOk(s.pool.queue, s.server) && ServingOk(s.tasks, s.server) && t in s.tasks && Serves(s.tasks[t]).None?
    requires Suffix(q, s.pool.queue)
    ensures QueueOk(q, Dropped(s.server, q)) && ServingOk(s.tasks - {t}, Dropped(s.server, q))
  {
    QueueDrop(s, q);
    ServingDrop(s, q);
    var s0 := s.(server := Dropped(s.server, q));
    ServingKeep(s0, End(s0, t), t);
  }

  lemma ReleaseIdle(s: World, t: TaskId)
    requires Parts(s) && t in s.tasks && s.tasks[t].Releasing?
    requires ReleaseSection(s.pool, s.tasks[t].c, {}).1.None?
    ensures Parts(Released(s, t))
  {
    hide Offer, Parts, WantsOk, QueueOk;
    ReleaseFactsOf(s, t);
    ReleaseIdleParts(s, Released(s, t), t);
  }

  lemma ReleaseIdleParts(s: World, s1: World, t: TaskId)
    requires Parts(s) && t in s.tasks && s.tasks[t].Releasing? && Suffix(s1.pool.queue, s.pool.queue)
    requires s1.pool ==
      s.pool.(conns := s.pool.conns + [s.tasks[t].c], queue := s1.pool.queue, cleanerRun := s1.pool.cleanerRun)
    requires s1.tasks == s.tasks - {t} && s1.owner == s.owner[s.tasks[t].c := Idle] && s1.caller == s.caller
    requires s1.server == Dropped(s.server, s1.pool.queue) && WantsOk(s1.pool.wants, s1.server, s1.caller)
    requires forall v :: v in s.pool.queue && v !in s1.pool.queue && v in s1.pool.wants ==> s1.pool.wants[v].Resolved()
    ensures Parts(s1)
  {
    hide Places, WantsOk, QueueOk, ServingOk, ResolvedOk, CallersOk;
    DropServers(s, t, s1.pool.queue);
    ResolvedRelease(s, s1);
    CallersKeep(s, s1, t);
    IdlePlaces(s, s1, t, s.tasks[t].c);
  }

  lemma ReleaseFactsOf(s: World, t: TaskId)
    requires Parts(s) && t in s.tasks && s.tasks[t].Releasing?
    requires ReleaseSection(s.pool, s.tasks[t].c, {}).1.None?
    ensures var (p1, taken, start) := ReleaseSection(s.pool, s.tasks[t].c, {});
      && Suffix(p1.queue, s.pool.queue) && p1.wants == s.pool.wants && p1.conns == s.pool.conns + [s.tasks[t].c]
      && (forall v :: v in s.pool.queue && v !in p1.queue && v in p1.wants ==> p1.wants[v].Resolved())
      && WantsOk(p1.wants, Dropped(s.server, p1.queue), s.caller)
  {
    hide Offer, Places, WantsOk, QueueOk, ServingOk, ResolvedOk, CallersOk;
    ReleaseFacts(s, t);
  }

  lemma ReleaseFacts(s: World, t: TaskId)
    requires WantsOk(s.pool.wants, s.server, s.caller) && QueueOk(s.pool.queue, s.server)
    requires t in s.tasks && s.tasks[t].Releasing?
    ensures var (p1, taken, start) := ReleaseSection(s.pool, s.tasks[t].c, {});
      && Suffix(p1.queue, s.pool.queue) && p1.wants.Keys == s.pool.wants.Keys
      && p1.connsCount == s.pool.connsCount && Cap(p1) == Cap(s.pool)
      && (taken.None? && s.pool.waitEnabled ==> p1.queue == [])
      && (taken.None? ==> p1.wants == s.pool.wants && p1.conns == s.pool.conns + [s.tasks[t].c])
      && (taken.Some? ==>
            && taken.value in s.pool.wants && !s.pool.wants[taken.value].Resolved()
            && taken.value in s.pool.queue && taken.value !in p1.queue && Served(s.server, taken.value, InQueue)
            && p1.conns == s.pool.conns
            && p1.wants == s.pool.wants[taken.value := Deliver(s.pool.wants[taken.value], Conn(s.tasks[t].c))])
      && (forall v :: v in s.pool.queue && v !in p1.queue && v in p1.wants ==> p1.wants[v].Resolved())
      && WantsOk(p1.wants, Dropped(s.server, p1.queue), s.caller)
  {
    OfferShape(s.pool, s.tasks[t].c);
  }

  /** A connection goes from the hand of t to the idle list. */
  lemma IdlePlaces(s: World, s1: World, t: TaskId, c: ConnId)
    requires Places(s) && t in s.tasks && Held(s.tasks[t]) == [c] && s1.tasks == s.tasks - {t}
    requires s1.owner == s.owner[c := Idle] && s1.pool.conns == s.pool.conns + [c] && s1.pool.wants == s.pool.wants
    ensures Places(s1)
  {
    hide IdleOk, DeliveredOk, HandsOk;
    HeldOwned(s, t, c);
    IdleIff(s, c);
    IdleDistinct(s);
    IdleMove(s, s1, c);
    DeliveredSame(s, s1, c);
    HandsMove(s, s1, t, c);
  }

  lemma ResolvedRelease(s: World, s1: World)
    requires QueueOk(s.pool.queue, s.server) && ResolvedOk(s.pool.wants, s.server)
    requires s1.server == Dropped(s.server, s1.pool.queue)
    requires forall v :: v in s.pool.wants && v in s1.pool.wants ==>
      s1.pool.wants[v] == s.pool.wants[v] || (v in s.pool.queue && v !in s1.pool.queue)
    requires s1.pool.wants.Keys == s.pool.wants.Keys
    requires forall v :: v in s.pool.queue && v !in s1.pool.queue && v in s1.pool.wants ==> s1.pool.wants[v].Resolved()
    ensures ResolvedOk(s1.pool.wants, s1.server)
  {
    forall v | v in s1.pool.wants && v in s1.server
      ensures (s1.server[v].Nobody? ==> s1.pool.wants[v].Resolved())
      ensures (s1.pool.wants[v].conn.Some? ==> s1.server[v].Nobody?)
    {
      assert v in s.pool.queue <==> Served(s.server, v, InQueue);
    }
  }

  lemma ReleaseTaken(s: World, t: TaskId, w: WantId)
    requires Parts(s) && t in s.tasks && s.tasks[t].Releasing?
    requires ReleaseSection(s.pool, s.tasks[t].c, {}).1 == Some(w)
    ensures Parts(Released(s, t))
  {
    hide Offer, Places, WantsOk, QueueOk, ServingOk, ResolvedOk, CallersOk;
    var s1 := Released(s, t);
    ReleaseFacts(s, t);
    DeliverPlaces(s, s1, t, w, Conn(s.tasks[t].c));
    DropServers(s, t, s1.pool.queue);
    ResolvedRelease(s, s1);
    NobodyServes(s1, w);
    CallersMove(s, s1, t, w);
  }

  // ---- decConnsCount and SetMaxConns

  lemma FreeSlotKeeps(s: World)
    requires Parts(s) && Tally(s, 1, 0) && NotStranded(s.pool)
    ensures Inv(FreeSlot(s))
  {
    hide Inv, Parts, Tally;
    if !s.pool.waitEnabled || s.pool.connsCount > Cap(s.pool) {
      SlotRetired(s);
    } else {
      var (q, w) := ServeWaiter(s.pool.wants, s.pool.queue);
      if w.Some? { SlotPassed(s, q, w.value); } else { SlotUnclaimed(s); }
    }
  }

  lemma SlotRetired(s: World)
    requires Parts(s) && Tally(s, 1, 0) && NotStranded(s.pool)
    requires (!s.pool.waitEnabled || s.pool.connsCount > Cap(s.pool))
    ensures Inv(FreeSlot(s))
  {
    hide Parts, Tally;
    FreshIds(s, 1, 0);
    SameQueue(s, s.pool.connsCount - 1);
    TallyMove(s, FreeSlot(s), s.nextTask, 1, 0, 0, 0);
  }

  lemma SlotPassed(s: World, q: seq<WantId>, w: WantId)
    requires Parts(s) && Tally(s, 1, 0) && NotStranded(s.pool) && s.pool.waitEnabled && s.pool.connsCount <= Cap(s.pool)
    requires ServeWaiter(s.pool.wants, s.pool.queue) == (q, Some(w))
    ensures Inv(FreeSlot(s))
  {
    hide Parts, Tally;
    FreshIds(s, 1, 0);
    ServeWaiterShrinks(s.pool.wants, s.pool.queue);
    hide ServeWaiter;
    ServeKeeps(s, q, w);
    TallyMove(s, Serve(s, q, w), s.nextTask, 1, 0, 0, 0);
    assert FreeSlot(s) == Serve(s, q, w);
  }

  lemma SlotUnclaimed(s: World)
    requires Parts(s) && Tally(s, 1, 0) && NotStranded(s.pool) && s.pool.waitEnabled && s.pool.connsCount <= Cap(s.pool)
    requires ServeWaiter(s.pool.wants, s.pool.queue).1.None?
    ensures Inv(FreeSlot(s))
  {
    hide Parts, Tally, ServeWaiter;
    FreshIds(s, 1, 0);
    DrainKeeps(s, s.pool.connsCount - 1);
    TallyMove(s, FreeSlot(s), s.nextTask, 1, 0, 0, 0);
  }

  lemma SameQueue(s: World, n: int)
    requires Parts(s)
    ensures Dropped(s.server, s.pool.queue) == s.server
    ensures !s.pool.waitEnabled ==> s.pool.queue == []
    ensures Parts(s.(pool := s.pool.(connsCount := n)))
  {
    forall v | v in s.server ensures Dropped(s.server, s.pool.queue)[v] == s.server[v] {
      assert v in s.pool.queue <==> Served(s.server, v, InQueue);
    }
    QueueEmptyWithoutWait(s);
  }

  lemma QueueEmptyWithoutWait(s: World)
    requires Waiters(s)
    ensures !s.pool.waitEnabled ==> s.pool.queue == []
  {
    hide ServingOk, ResolvedOk, CallersOk;
    assert |s.pool.queue| > 0 ==> s.pool.queue[0] in s.pool.queue;
    forall w | w in s.pool.queue ensures w in s.pool.wants {
      assert Served(s.server, w, InQueue);
    }
  }

  /** serveWaiterLocked finding nobody: the queue is empty afterwards. */
  lemma DrainKeeps(s: World, n: int)
    requires Parts(s)
    requires ServeWaiter(s.pool.wants, s.pool.queue).1.None?
    ensures ServeWaiter(s.pool.wants, s.pool.queue).0 == []
    ensures Parts(s.(pool := s.pool.(queue := [], connsCount := n), server := Dropped(s.server, [])))
  {
    hide IdleOk, DeliveredOk, HandsOk, ServingOk, CallersOk;
    ServeWaiterShrinks(s.pool.wants, s.pool.queue);
    QueueDrop(s, []);
    ServingDrop(s, []);
    forall v | v in s.pool.queue ensures !Waiting(s.pool.wants, v) {
      var i :| 0 <= i < |s.pool.queue| && s.pool.queue[i] == v;
    }
    forall v | v in s.pool.wants && Dropped(s.server, [])[v].Nobody? ensures s.pool.wants[v].Resolved() {
      QueuedIff(s, v);
      assert s.pool.wants[v].Valid();
    }
  }

  /** One connection leaves the hand of t and the world, and its slot is free. */
  lemma CloseOne(s: World, s1: World, t: TaskId, c: ConnId)
    requires Inv(s) && TasksBut(s, s1, t) && t in s.tasks && s1 == s.(tasks := s1.tasks, owner := s.owner - {c})
    requires Held(s.tasks[t]) != [] && Held(s.tasks[t])[0] == c && !Bare(s.tasks[t])
    requires (if t in s1.tasks then Held(s1.tasks[t]) else []) == Held(s.tasks[t])[1..]
    requires t in s1.tasks ==> Serves(s1.tasks[t]).None? && Calls(s1.tasks[t]).None? && !Bare(s1.tasks[t])
    requires Serves(s.tasks[t]).None? && Calls(s.tasks[t]).None?
    requires s.tasks[t].Cleaner? == (t in s1.tasks && s1.tasks[t].Cleaner?)
    ensures Inv(FreeSlot(s1))
  {
    hide Parts, Tally;
    FreshIds(s, 0, 0);
    CloseOneParts(s, s1, t, c);
    OwnerDrop(s.owner, c);
    TallyMove(s, s1, t, 0, 0, 1, 0);
    FreeSlotKeeps(s1);
  }

  lemma CloseOneParts(s: World, s1: World, t: TaskId, c: ConnId)
    requires Parts(s) && TasksBut(s, s1, t) && t in s.tasks && s1 == s.(tasks := s1.tasks, owner := s.owner - {c})
    requires Held(s.tasks[t]) != [] && Held(s.tasks[t])[0] == c
    requires (if t in s1.tasks then Held(s1.tasks[t]) else []) == Held(s.tasks[t])[1..]
    requires t in s1.tasks ==> Serves(s1.tasks[t]).None? && Calls(s1.tasks[t]).None?
    requires Serves(s.tasks[t]).None? && Calls(s.tasks[t]).None?
    ensures Parts(s1) && c in s.owner
  {
    hide IdleOk, DeliveredOk, HandsOk, WantsOk, QueueOk, ServingOk, ResolvedOk, CallersOk;
    HeldOwned(s, t, c);
    CloseOnePlaces(s, s1, t, c);
    ServingKeep(s, s1, t);
    CallersKeep(s, s1, t);
  }

  lemma CloseOnePlaces(s: World, s1: World, t: TaskId, c: ConnId)
    requires Places(s) && TasksBut(s, s1, t) && t in s.tasks && At(s.owner, c, Hand(t)) && Distinct(Held(s.tasks[t]))
    requires Held(s.tasks[t]) != [] && Held(s.tasks[t])[0] == c && s1.pool == s.pool && s1.owner == s.owner - {c}
    requires (if t in s1.tasks then Held(s1.tasks[t]) else []) == Held(s.tasks[t])[1..]
    ensures Places(s1)
  {
    hide IdleOk, DeliveredOk, HandsOk;
    IdleIff(s, c);
    IdleDistinct(s);
    IdleMove(s, s1, c);
    DeliveredSame(s, s1, c);
    assert Held(s.tasks[t]) == [c] + Held(s.tasks[t])[1..];
    HandsMove(s, s1, t, c);
  }

  lemma DecKeeps(s: World, t: TaskId)
    requires Inv(s) && t in s.tasks
    ensures Inv(DecStep(s, t))
  {
    hide Inv;
    match s.tasks[t]
    case Retiring => DecRetiring(s, t);
    case Closing(cs) => if cs != [] { DecClosing(s, t, cs); }
    case Cleaner(ClosingIdle(cs)) =>
      if cs != [] {
        var s0 := s.(owner := s.owner - {cs[0]});
        CloseOne(s, Put(s0, t, Cleaner(if |cs| == 1 then Checking else ClosingIdle(cs[1..]))), t, cs[0]);
      }
    case _ =>
  }

  lemma DecRetiring(s: World, t: TaskId)
    requires Inv(s) && t in s.tasks && s.tasks[t].Retiring?
    ensures Inv(FreeSlot(End(s, t)))
  {
    hide Parts, Tally;
    FreshIds(s, 0, 0);
    TallyMove(s, End(s, t), t, 0, 0, 1, 0);
    TaskKeep(s, End(s, t), t);
    FreeSlotKeeps(End(s, t));
  }

  lemma DecClosing(s: World, t: TaskId, cs: seq<ConnId>)
    requires Inv(s) && t in s.tasks && s.tasks[t] == Closing(cs) && cs != []
    ensures Inv(DecStep(s, t))
  {
    hide Inv;
    var s0 := s.(owner := s.owner - {cs[0]});
    CloseOne(s, if |cs| == 1 then End(s0, t) else Put(s0, t, Closing(cs[1..])), t, cs[0]);
  }

  lemma {:induction false} GrowKeeps(s: World)
    requires Parts(s) && Tally(s, 0, 0) && (s.pool.queue != [] ==> s.pool.conns == [])
    ensures Inv(Grow(s))
    decreases |s.pool.queue|
  {
    hide Parts, Tally;
    FreshIds(s, 0, 0);
    if s.pool.connsCount < Cap(s.pool) {
      var (q, w) := ServeWaiter(s.pool.wants, s.pool.queue);
      ServeWaiterShrinks(s.pool.wants, s.pool.queue);
      hide ServeWaiter;
      if w.None? {
        var s1 := s.(pool := s.pool.(queue := [], connsCount := s.pool.connsCount), server := Dropped(s.server, []));
        assert Grow(s) == s1;
        hide Grow, Dropped;
        DrainKeeps(s, s.pool.connsCount);
        TallyMove(s, s1, s.nextTask, 0, 0, 0, 0);
      } else {
        GrowOne(s, q, w.value);
        GrowKeeps(Grown(s, q, w.value));
      }
    }
  }

  lemma SetMaxKeeps(s: World, n: int)
    requires Inv(s)
    ensures Inv(Next(s, SetMaxConns(n)))
  {
    hide Parts, Tally;
    FreshIds(s, 0, 0);
    TaskKeep(s, s.(pool := s.pool.(maxConns := n)), s.nextTask);
    TallyMove(s, s.(pool := s.pool.(maxConns := n)), s.nextTask, 0, 0, 0, 0);
    GrowKeeps(s.(pool := s.pool.(maxConns := n)));
  }

  function Grown(s: World, q: seq<WantId>, w: WantId): World {
    var s1 := s.(pool := s.pool.(queue := q), server := Dropped(s.server, q));
    SpawnDial(s1.(pool := s1.pool.(connsCount := s1.pool.connsCount + 1)), w)
  }

  lemma GrowOne(s: World, q: seq<WantId>, w: WantId)
    requires Parts(s) && Tally(s, 0, 0) && ServeWaiter(s.pool.wants, s.pool.queue) == (q, Some(w))
    ensures Parts(Grown(s, q, w)) && Tally(Grown(s, q, w), 0, 0)
  {
    hide Parts, Tally;
    FreshIds(s, 0, 0);
    var s1 := Serve(s, q, w);
    TallyMove(s, Grown(s, q, w), s.nextTask, 0, 0, 0, 0);
    ServeKeeps(s, q, w);
    SameQueue(s1, s.pool.connsCount + 1);
    assert Grown(s, q, w) == s1.(pool := s1.pool.(connsCount := s.pool.connsCount + 1));
  }

  // ---- closing idle connections

  /** The idle connections cs move into the hand of t. */
  lemma GripPlaces(s: World, s1: World, t: TaskId, cs: seq<ConnId>)
    requires Places(s) && TasksBut(s, s1, t) && s1.pool.wants == s.pool.wants
    requires s1.owner == Grip(s.owner, cs, Hand(t)) && s.pool.conns == cs + s1.pool.conns
    requires t in s1.tasks && Held(s1.tasks[t]) == cs && (t in s.tasks ==> Held(s.tasks[t]) == [])
    ensures Places(s1) && s1.owner.Keys == s.owner.Keys && |s1.owner| == |s.owner|
  {
    forall c | c in cs ensures At(s.owner, c, Idle) { assert c in s.pool.conns; }
    OwnerGrip(s.owner, cs, Hand(t));
    assert forall i :: 0 <= i < |cs| ==> cs[i] == s.pool.conns[i];
    GripIdle(s, s1, t, cs);
    forall v, d ensures Carries(s1.pool.wants, v, d) <==> At(s1.owner, d, Delivered(v)) {
      assert Carries(s.pool.wants, v, d) <==> At(s.owner, d, Delivered(v));
    }
    GripHands(s, s1, t, cs);
  }

  lemma GripIdle(s: World, s1: World, t: TaskId, cs: seq<ConnId>)
    requires IdleOk(s.pool.conns, s.owner) && s1.owner == Grip(s.owner, cs, Hand(t))
    requires s.pool.conns == cs + s1.pool.conns
    ensures IdleOk(s1.pool.conns, s1.owner)
  {
    forall i, j | 0 <= i < j < |s1.pool.conns| ensures s1.pool.conns[i] != s1.pool.conns[j] {
      assert s.pool.conns[|cs| + i] == s1.pool.conns[i] && s.pool.conns[|cs| + j] == s1.pool.conns[j];
    }
    forall i, j | 0 <= i < |cs| && 0 <= j < |s1.pool.conns| ensures cs[i] != s1.pool.conns[j] {
      assert s.pool.conns[i] == cs[i] && s.pool.conns[|cs| + j] == s1.pool.conns[j];
    }
    forall c ensures c in s1.pool.conns <==> At(s1.owner, c, Idle) {
      assert c in s.pool.conns <==> At(s.owner, c, Idle);
    }
  }

  lemma GripHands(s: World, s1: World, t: TaskId, cs: seq<ConnId>)
    requires HandsOk(s.tasks, s.owner) && TasksBut(s, s1, t) && s1.owner == Grip(s.owner, cs, Hand(t))
    requires forall c :: c in cs ==> At(s.owner, c, Idle)
    requires t in s1.tasks && Held(s1.tasks[t]) == cs && Distinct(cs) && (t in s.tasks ==> Held(s.tasks[t]) == [])
    ensures HandsOk(s1.tasks, s1.owner)
  {
    forall u, d ensures Holds(s1.tasks, u, d) <==> At(s1.owner, d, Hand(u)) {
      assert Holds(s.tasks, u, d) <==> At(s.owner, d, Hand(u));
      assert u != t ==> (Holds(s1.tasks, u, d) <==> Holds(s.tasks, u, d));
    }
  }

  lemma GripKeeps(s: World, s1: World, t: TaskId, cs: seq<ConnId>)
    requires Parts(s) && TasksBut(s, s1, t) && s1.pool == s.pool.(conns := s1.pool.conns)
    requires s1.server == s.server && s1.caller == s.caller
    requires s1.owner == Grip(s.owner, cs, Hand(t)) && s.pool.conns == cs + s1.pool.conns
    requires t in s1.tasks && Held(s1.tasks[t]) == cs && Serves(s1.tasks[t]).None? && Calls(s1.tasks[t]).None?
    requires t in s.tasks ==> Held(s.tasks[t]) == [] && Serves(s.tasks[t]).None? && Calls(s.tasks[t]).None?
    ensures Parts(s1) && s1.owner.Keys == s.owner.Keys && |s1.owner| == |s.owner|
  {
    hide Places, WantsOk, QueueOk, ServingOk, ResolvedOk, CallersOk;
    GripPlaces(s, s1, t, cs);
    ServingKeep(s, s1, t);
    CallersKeep(s, s1, t);
  }

  lemma CloseIdleKeeps(s: World)
    requires Inv(s)
    ensures Inv(Next(s, CloseIdle))
  {
    hide Parts, Tally, Grip;
    FreshIds(s, 0, 0);
    if s.pool.conns != [] {
      GripKeeps(s, Next(s, CloseIdle), s.nextTask, s.pool.conns);
      TallyMove(s, Next(s, CloseIdle), s.nextTask, 0, 0, 0, 0);
    }
  }

  lemma ScanKeeps(s: World, t: TaskId, k: nat)
    requires Inv(s) && t in s.tasks && s.tasks[t] == Cleaner(Scanning) && k <= |s.pool.conns|
    ensures Inv(ScanStep(s, t, k))
  {
    hide Parts, Tally, Grip;
    FreshIds(s, 0, 0);
    GripKeeps(s, ScanStep(s, t, k), t, s.pool.conns[..k]);
    TallyMove(s, ScanStep(s, t, k), t, 0, 0, 0, 0);
  }

  /** The cleaner's stop test is right: no slot in use means no idle connection. */
  lemma EmptyWithoutSlots(s: World)
    requires Parts(s) && Tally(s, 0, 0)
    ensures s.pool.connsCount == 0 ==> s.pool.conns == []
  {
    if s.pool.conns != [] { IdleIff(s, s.pool.conns[0]); }
  }

  lemma CleanerFlag(s: World, t: TaskId)
    requires Tally(s, 0, 0) && t in s.tasks && s.tasks[t].Cleaner?
    ensures s.pool.cleanerRun
  {
    assert t in Matching(s.tasks, IsCleaner);
  }

  lemma StopKeeps(s: World, t: TaskId)
    requires Inv(s) && t in s.tasks && s.tasks[t] == Cleaner(Checking)
    ensures Inv(StopStep(s, t))
  {
    hide Parts, Tally;
    FreshIds(s, 0, 0);
    EmptyWithoutSlots(s);
    CleanerFlag(s, t);
    TallyMove(s, StopStep(s, t), t, 0, 0, 0, 0);
    TaskKeep(s, StopStep(s, t), t);
  }

  // ---- every step

  lemma EnterKeeps(s: World, connectionClose: bool)
    requires Inv(s)
    ensures Inv(Next(s, Enter(connectionClose)))
  {
    hide Parts, Tally;
    FreshIds(s, 0, 0);
    TallyMove(s, Next(s, Enter(connectionClose)), s.nextTask, 0, 0, 0, 0);
    TaskKeep(s, Next(s, Enter(connectionClose)), s.nextTask);
  }

  /** A goroutine moves on with everything it holds. */
  lemma SwapKeeps(s: World, t: TaskId, x: Task)
    requires Inv(s) && t in s.tasks && Held(x) == Held(s.tasks[t]) && Serves(x) == Serves(s.tasks[t])
    requires Calls(x) == Calls(s.tasks[t]) && Bare(x) == Bare(s.tasks[t]) && x.Cleaner? == s.tasks[t].Cleaner?
    ensures Inv(Put(s, t, x))
  {
    hide Parts, Tally;
    FreshIds(s, 0, 0);
    TallyMove(s, Put(s, t, x), t, 0, 0, 0, 0);
    TaskKeep(s, Put(s, t, x), t);
  }

  lemma DialFailKeeps(s: World, t: TaskId)
    requires Inv(s) && t in s.tasks
    ensures Inv(DialFailStep(s, t))
  {
    hide Inv;
    match s.tasks[t]
    case Dialing => SwapKeeps(s, t, Retiring);
    case DialingFor(w) => SwapKeeps(s, t, DeliveringTo(w, Failure));
    case _ =>
  }

  /** Every step keeps the invariant. */
  lemma StepKeeps(s: World, step: Step)
    requires Inv(s)
    ensures Inv(Next(s, step))
  {
    hide Inv;
    match step
    case Enter(connectionClose) => EnterKeeps(s, connectionClose);
    case Acquire(t) => if t in s.tasks && s.tasks[t].Acquiring? { AcquireKeeps(s, t); }
    case Queue(t) => if t in s.tasks && s.tasks[t].Queueing? { QueueKeeps(s, t); }
    case HandOver(t) => if t in s.tasks && s.tasks[t].Handing? { HandOverKeeps(s, t); }
    case Take(t) => if t in s.tasks && s.tasks[t].Awaiting? { TakeKeeps(s, t); }
    case Timeout(t) => if t in s.tasks && s.tasks[t].Awaiting? { SwapKeeps(s, t, Cancelling(s.tasks[t].w)); }
    case CancelWait(t) => if t in s.tasks && s.tasks[t].Cancelling? { CancelKeeps(s, t); }
    case DialOk(t) => if t in s.tasks { DialOkKeeps(s, t); }
    case DialFail(t) => if t in s.tasks { DialFailKeeps(s, t); }
    case DeliverTo(t) => if t in s.tasks && s.tasks[t].DeliveringTo? { DeliverKeeps(s, t); }
    case GiveBack(t) => if t in s.tasks && s.tasks[t].Leased? { SwapKeeps(s, t, Releasing(s.tasks[t].c)); }
    case Discard(t) => if t in s.tasks && s.tasks[t].Leased? { SwapKeeps(s, t, Closing([s.tasks[t].c])); }
    case Release(t) => if t in s.tasks && s.tasks[t].Releasing? { ReleaseKeeps(s, t); }
    case Dec(t) => if t in s.tasks { DecKeeps(s, t); }
    case SetMaxConns(n) => SetMaxKeeps(s, n);
    case CloseIdle => CloseIdleKeeps(s);
    case Scan(t, k) =>
      if t in s.tasks && s.tasks[t] == Cleaner(Scanning) && k <= |s.pool.conns| { ScanKeeps(s, t, k); }
    case Stop(t) => if t in s.tasks && s.tasks[t] == Cleaner(Checking) { StopKeeps(s, t); }
  }

  /** The invariant holds in every state of every run. */
  lemma {:induction false} RunKeeps(maxConns: int, waitEnabled: bool, strategy: Strategy, steps: seq<Step>)
    ensures Inv(Run(Initial(maxConns, waitEnabled, strategy), steps))
  {
    var s := Initial(maxConns, waitEnabled, strategy);
    if steps == [] {
      assert Matching(s.tasks, Bare) == {} && Matching(s.tasks, IsCleaner) == {};
    } else {
      hide Inv;
      RunKeeps(maxConns, waitEnabled, strategy, steps[..|steps| - 1]);
      StepKeeps(Run(s, steps[..|steps| - 1]), steps[|steps| - 1]);
    }
  }
}
