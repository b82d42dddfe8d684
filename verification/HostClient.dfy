/** The HostClient pool as an object: its critical sections as methods that update
    fields and loop over the wait queue (fasthttp/client.go:1848-2229). The wantConns
    in reach are a table from identity to fields; class WantConn has the record itself. */
module HostClients {
  import opened Common
  import opened WantConns
  import opened HostPool

  lemma GrowUnfolds(before: Pool, after: Pool, w: WantId)
    requires before.connsCount < Cap(before) && ServeWaiter(before.wants, before.queue) == (after.queue, Some(w))
    requires after == before.(queue := after.queue, connsCount := before.connsCount + 1)
    ensures GrowSection(before) == (GrowSection(after).0, [w] + GrowSection(after).1)
  {
  }

  class HostClient {
    var conns: seq<ConnId>
    var connsCount: int
    var maxConns: int
    var connsCleanerRun: bool
    var wants: map<WantId, Want>
    const connsWait: WantConnQueue<WantId>
    const waitEnabled: bool
    const strategy: Strategy

    ghost predicate Valid()
      reads this, connsWait
    {
      && connsWait.Valid()
      && forall w :: w in wants ==> wants[w].Valid()
    }

    ghost function View(): Pool
      requires connsWait.Valid()
      reads this, connsWait
    {
      Pool(conns, connsCount, maxConns, connsWait.Contents(), wants, connsCleanerRun, waitEnabled, strategy)
    }

    constructor (maxConns: int, waitEnabled: bool, strategy: Strategy)
      ensures Valid() && fresh(connsWait)
      ensures View() == Pool([], 0, maxConns, [], map[], false, waitEnabled, strategy)
    {
      connsWait := new WantConnQueue<WantId>();
      this.conns, this.connsCount, this.maxConns, connsCleanerRun := [], 0, maxConns, false;
      this.waitEnabled, this.strategy := waitEnabled, strategy;
      wants := map[];
    }

    /** The cap in force, which is positive whatever was configured. */
    function MaxConnsLocked(): (n: int)
      requires connsWait.Valid()
      reads this, connsWait
      ensures n > 0 && n == Cap(View())
    {
      if maxConns <= 0 then DefaultMaxConnsPerHost else maxConns
    }

    method ServeWaiterLocked() returns (served: Option<WantId>)
      requires Valid()
      modifies connsWait
      ensures Valid()
      ensures var (q, w) := ServeWaiter(wants, old(connsWait.Contents())); connsWait.Contents() == q && served == w
    {
      while connsWait.Len() > 0
        invariant Valid()
        invariant ServeWaiter(wants, old(connsWait.Contents())) == ServeWaiter(wants, connsWait.Contents())
        decreases connsWait.Len()
      {
        var w := connsWait.PopFront();
        if Waiting(wants, w.value) { return w; }
      }
      return None;
    }

    /** Returns the waiters for which a dialing goroutine was started. */
    method SetMaxConns(newMaxConns: int) returns (dials: seq<WantId>)
      requires Valid()
      modifies this`maxConns, this`connsCount, connsWait
      ensures Valid()
      ensures (View(), dials) == SetMaxSection(old(View()), newMaxConns)
    {
      maxConns := newMaxConns;
      dials := [];
      ghost var start := View();
      while connsCount < MaxConnsLocked()
        invariant Valid() && maxConns == newMaxConns
        invariant GrowSection(start).0 == GrowSection(View()).0
        invariant GrowSection(start).1 == dials + GrowSection(View()).1
        decreases connsWait.Len()
      {
        ghost var before := View();
        ServeWaiterShrinks(wants, before.queue);
        var w := ServeWaiterLocked();
        if w.None? {
          assert GrowSection(before) == (View(), []);
          assert dials + [] == dials;
          return;
        }
        connsCount := connsCount + 1;
        GrowUnfolds(before, View(), w.value);
        dials := dials + [w.value];
      }
      assert dials + [] == dials;
    }

    /** AcquireConn up to the first unlock. The flag says whether to start the cleaner. */
    method Acquire(connectionClose: bool) returns (grant: Grant, startCleaner: bool)
      requires Valid()
      modifies this`conns, this`connsCount, this`connsCleanerRun
      ensures Valid()
      ensures (View(), grant, startCleaner) == AcquireSection(old(View()), connectionClose)
    {
      startCleaner := false;
      var n := |conns|;
      if n == 0 {
        if connsCount < MaxConnsLocked() {
          connsCount := connsCount + 1;
          grant := Reserved;
          if !connsCleanerRun && !connectionClose {
            startCleaner, connsCleanerRun := true, true;
          }
        } else {
          grant := Refused;
        }
      } else {
        match strategy {
          case LIFO =>
            grant := Got(conns[n - 1]);
            conns := conns[..n - 1];
          case FIFO =>
            grant := Got(conns[0]);
            conns := conns[1..];
          case Unsupported => grant := BadStrategy;
        }
      }
    }

    method ClearFront()
      requires Valid()
      modifies connsWait
      ensures Valid()
      ensures connsWait.Contents() == HostPool.ClearFront(wants, old(connsWait.Contents()))
    {
      while true
        invariant Valid()
        invariant HostPool.ClearFront(wants, old(connsWait.Contents())) ==
          HostPool.ClearFront(wants, connsWait.Contents())
        decreases connsWait.Len()
      {
        var w := connsWait.PeekFront();
        if w.None? || Waiting(wants, w.value) { return; }
        var _ := connsWait.PopFront();
      }
    }

    method QueueForIdle(w: WantId, connectionClose: bool) returns (grant: Grant, startCleaner: bool)
      requires Valid()
      modifies this`conns, this`connsCount, this`connsCleanerRun, connsWait
      ensures Valid()
      ensures (View(), grant, startCleaner) == QueueSection(old(View()), w, connectionClose)
    {
      if |conns| > 0 || connsCount < MaxConnsLocked() {
        grant, startCleaner := Acquire(connectionClose);
        return;
      }
      ClearFront();
      connsWait.PushBack(w);
      return Refused, false;
    }

    method DecConnsCount() returns (dial: Option<WantId>)
      requires Valid()
      modifies this`connsCount, connsWait
      ensures Valid()
      ensures (View(), dial) == DecSection(old(View()))
    {
      if !waitEnabled || connsCount > MaxConnsLocked() {
        connsCount := connsCount - 1;
        return None;
      }
      dial := ServeWaiterLocked();
      if dial.None? { connsCount := connsCount - 1; }
    }

    /** `lost` are the waiters that cancel themselves between the waiting test and tryDeliver. */
    method ReleaseConn(cc: ConnId, lost: set<WantId>) returns (taken: Option<WantId>, startCleaner: bool)
      requires Valid()
      modifies this`conns, this`connsCleanerRun, this`wants, connsWait
      ensures Valid()
      ensures (View(), taken, startCleaner) == ReleaseSection(old(View()), cc, lost)
    {
      startCleaner, taken := false, None;
      if waitEnabled { taken := DeliverIdle(cc, lost); }
      if taken.None? { conns := conns + [cc]; }
      if |conns| > 0 && !connsCleanerRun {
        connsCleanerRun, startCleaner := true, true;
      }
    }

    method DeliverIdle(cc: ConnId, lost: set<WantId>) returns (taken: Option<WantId>)
      requires Valid()
      modifies this`wants, connsWait
      ensures Valid()
      ensures (wants, connsWait.Contents(), taken) == Offer(old(wants), old(connsWait.Contents()), cc, lost)
    {
      while connsWait.Len() > 0
        invariant Valid()
        invariant Offer(old(wants), old(connsWait.Contents()), cc, lost) == Offer(wants, connsWait.Contents(), cc, lost)
        decreases connsWait.Len()
      {
        var w := connsWait.PopFront();
        if Waiting(wants, w.value) {
          ghost var before := wants;
          if w.value in lost { wants := wants[w.value := Cancel(wants[w.value])]; }
          var delivered := TryDeliver(w.value, Conn(cc));
          if delivered { return w; }
          assert wants == before[w.value := Cancel(before[w.value])];
        }
      }
      return None;
    }

    method TryDeliver(w: WantId, p: Parcel) returns (delivered: bool)
      requires Valid() && w in wants
      modifies this`wants
      ensures Valid() && wants == old(wants)[w := Deliver(old(wants)[w], p)]
      ensures delivered == !old(wants)[w].Resolved()
    {
      if wants[w].Resolved() { return false; }
      wants := wants[w := Deliver(wants[w], p)];
      return true;
    }

    method CloseIdleConnections() returns (scratch: seq<ConnId>)
      requires Valid()
      modifies this`conns
      ensures Valid()
      ensures (View(), scratch) == CloseIdleSection(old(View()))
    {
      scratch := conns;
      conns := [];
    }

    /** The cleaner's first section: the longest prefix of connections that were idle for too long,
        and for how long to sleep until the next one will have been. */
    method CleanerScan(lastUse: ConnId -> int, now: int, configured: int) returns (scratch: seq<ConnId>, sleepFor: int)
      requires Valid()
      modifies this`conns
      ensures Valid() && |scratch| <= |old(conns)|
      ensures (View(), scratch) == ScanSection(old(View()), |scratch|)
      ensures forall c :: c in scratch ==> now - lastUse(c) > MaxIdle(configured)
      ensures conns != [] ==>
        now - lastUse(conns[0]) <= MaxIdle(configured) < now + sleepFor - lastUse(conns[0])
      ensures conns == [] ==> sleepFor == MaxIdle(configured)
    {
      var maxIdle := MaxIdle(configured);
      var i := 0;
      while i < |conns| && now - lastUse(conns[i]) > maxIdle
        invariant 0 <= i <= |conns| && forall c :: c in conns[..i] ==> now - lastUse(c) > maxIdle
      {
        assert conns[..i + 1] == conns[..i] + [conns[i]];
        i := i + 1;
      }
      sleepFor := maxIdle;
      if i < |conns| { sleepFor := maxIdle - (now - lastUse(conns[i])) + 1; }
      scratch := conns[..i];
      conns := conns[i..];
    }

    method CleanerCheck() returns (mustStop: bool)
      requires Valid()
      modifies this`connsCleanerRun
      ensures Valid()
      ensures (View(), mustStop) == StopSection(old(View()))
    {
      mustStop := connsCount == 0;
      if mustStop { connsCleanerRun := false; }
    }
  }
}
