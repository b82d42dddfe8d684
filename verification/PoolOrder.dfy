/** In which order idle connections are used (fasthttp/client.go:1895-1909, 2045-2113, 2216-2229), and who
    gets what when nobody waits. */
module PoolOrder {
  import opened Common
  import opened WantConns
  import opened HostPool

  /** An acquisition, the release of a connection, or a run of the cleaner that finds k of them expired. */
  datatype Visit = Take(connectionClose: bool) | Put(c: ConnId, lost: set<WantId>) | Sweep(k: nat)

  /** The pool afterwards, and the connections that left the idle list. */
  function Apply(p: Pool, v: Visit): (Pool, seq<ConnId>) {
    match v
    case Take(close) =>
      var (p1, grant, _) := AcquireSection(p, close);
      (p1, if grant.Got? then [grant.c] else [])
    case Put(c, lost) => (ReleaseSection(p, c, lost).0, [])
    case Sweep(k) => if k <= |p.conns| then ScanSection(p, k) else (p, [])
  }

  function Play(p: Pool, vs: seq<Visit>): (Pool, seq<ConnId>) {
    if vs == [] then (p, [])
    else
      var (p1, out) := Play(p, vs[..|vs| - 1]);
      var (p2, cs) := Apply(p1, vs[|vs| - 1]);
      (p2, out + cs)
  }

  /** The connections released, in order. */
  function Released(vs: seq<Visit>): seq<ConnId> {
    if vs == [] then []
    else Released(vs[..|vs| - 1]) + if vs[|vs| - 1].Put? then [vs[|vs| - 1].c] else []
  }

  /** Nobody waits for a connection, and none of these visits makes anybody wait. */
  lemma QuietApply(p: Pool, v: Visit)
    requires p.queue == []
    ensures var (p1, out) := Apply(p, v); p1.queue == [] && p1.strategy == p.strategy && p1.maxConns == p.maxConns
    ensures v.Put? ==> Apply(p, v).0.conns == p.conns + [v.c] && Apply(p, v).1 == []
  {
  }

  lemma {:induction false} QuietPlay(p: Pool, vs: seq<Visit>)
    requires p.queue == []
    ensures var (p1, out) := Play(p, vs); p1.queue == [] && p1.strategy == p.strategy && p1.maxConns == p.maxConns
  {
    if vs != [] {
      QuietPlay(p, vs[..|vs| - 1]);
      QuietApply(Play(p, vs[..|vs| - 1]).0, vs[|vs| - 1]);
    }
  }

  lemma FifoApply(p: Pool, v: Visit)
    requires p.queue == [] && p.strategy.FIFO?
    ensures var (p1, cs) := Apply(p, v); cs + p1.conns == p.conns + Released([v])
  {
    assert [v][..0] == [] && Released([]) == [];
  }

  /** FIFO: over any run, connections leave the idle list in the order in which they came to it. */
  lemma {:induction false} FifoOrder(p: Pool, vs: seq<Visit>)
    requires p.queue == [] && p.strategy.FIFO?
    ensures var (p1, out) := Play(p, vs); out + p1.conns == p.conns + Released(vs)
  {
    hide Apply;
    if vs != [] {
      var front, v := vs[..|vs| - 1], vs[|vs| - 1];
      FifoOrder(p, front);
      QuietPlay(p, front);
      var (p1, out) := Play(p, front);
      FifoApply(p1, v);
      var (p2, cs) := Apply(p1, v);
      assert Released([v]) == Released([]) + if v.Put? then [v.c] else [] by { assert [v][..0] == []; }
      hide Released, Play;
      calc {
        out + cs + p2.conns;
        out + (cs + p2.conns);
        out + (p1.conns + Released([v]));
        out + p1.conns + Released([v]);
        p.conns + Released(front) + Released([v]);
      }
    }
  }

  /** Visits that pair each release with a later acquisition, like brackets. */
  datatype Nest = Nothing | Then(c: ConnId, lost: set<WantId>, inner: Nest, close: bool, rest: Nest)

  function Visits(n: Nest): seq<Visit> {
    match n
    case Nothing => []
    case Then(c, lost, inner, close, rest) => [Put(c, lost)] + Visits(inner) + [Take(close)] + Visits(rest)
  }

  /** Each acquisition's connection is that of its own bracket. */
  function Inside(n: Nest): seq<ConnId> {
    match n
    case Nothing => []
    case Then(c, _, inner, _, rest) => Inside(inner) + [c] + Inside(rest)
  }

  lemma {:induction false} PlayOn(p: Pool, a: seq<Visit>, b: seq<Visit>)
    ensures var (p1, out1) := Play(p, a);
      var (p2, out2) := Play(p1, b);
      Play(p, a + b) == (p2, out1 + out2)
    decreases |b|
  {
    hide Apply;
    var (p1, out1) := Play(p, a);
    if b == [] {
      assert a + b == a && out1 + [] == out1;
    } else {
      var front := b[..|b| - 1];
      assert (a + b)[..|a + b| - 1] == a + front;
      PlayOn(p, a, front);
      var (p2, out2) := Play(p1, front);
      var (_, cs) := Apply(p2, b[|b| - 1]);
      assert out1 + out2 + cs == out1 + (out2 + cs);
    }
  }

  lemma PlayOne(p: Pool, v: Visit)
    ensures Play(p, [v]) == (Apply(p, v).0, Apply(p, v).1)
  {
    assert [v][..0] == [];
    assert Play(p, []) == (p, []);
    assert [] + Apply(p, v).1 == Apply(p, v).1;
  }

  lemma LifoTake(p: Pool, c: ConnId, close: bool)
    requires p.queue == [] && p.strategy.LIFO? && p.conns != [] && p.conns[|p.conns| - 1] == c
    ensures var (p1, out) := Apply(p, Take(close)); out == [c] && p1.conns == p.conns[..|p.conns| - 1]
  {
  }

  /** LIFO: a connection that was released to nobody is the one the next acquisition gets, and so
      through any nesting of releases and acquisitions; afterwards the idle list is as before. */
  lemma {:induction false} LifoOrder(p: Pool, n: Nest)
    requires p.queue == [] && p.strategy.LIFO?
    ensures var (p1, out) := Play(p, Visits(n)); out == Inside(n) && p1.conns == p.conns
    decreases n
  {
    hide Apply, Play;
    if n.Nothing? {
      assert Play(p, []) == (p, []) by { PlayNone(p); }
    } else {
      var put, take := [Put(n.c, n.lost)], [Take(n.close)];
      PlayOne(p, put[0]);
      QuietApply(p, put[0]);
      var p1 := Play(p, put).0;
      LifoOrder(p1, n.inner);
      QuietPlay(p1, Visits(n.inner));
      var p2 := Play(p1, Visits(n.inner)).0;
      PlayOne(p2, take[0]);
      QuietApply(p2, take[0]);
      LifoTake(p2, n.c, n.close);
      var p3 := Play(p2, take).0;
      assert p3.conns == p.conns;
      LifoOrder(p3, n.rest);
      PlayOn(p, put, Visits(n.inner));
      PlayOn(p, put + Visits(n.inner), take);
      PlayOn(p, put + Visits(n.inner) + take, Visits(n.rest));
      Brackets(n);
      assert Visits(n) == put + Visits(n.inner) + take + Visits(n.rest);
    }
  }

  lemma Brackets(n: Nest)
    requires n.Then?
    ensures Inside(n) == [] + Inside(n.inner) + [n.c] + Inside(n.rest)
  {
    assert [] + Inside(n.inner) == Inside(n.inner);
  }

  lemma PlayNone(p: Pool)
    ensures Play(p, []) == (p, [])
  {
  }
}
