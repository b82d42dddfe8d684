/** How a Response that was used for HEAD puts a pipelined connection out of step. */
module PipelineTrap {
  import opened Common
  import opened ResponseWire
  import opened Pipeline
  import opened PipelineInvariants
  import opened PipelineTheorems

  ghost predicate NewCallers(s: World) { forall t :: t in s.callers ==> t < s.nextCaller }

  /** Both queues are empty and nothing is in a hand. */
  ghost predicate Quiet(s: World, g: GenId) {
    && s.chs == Some(g) && g in s.gens && s.cap > 0
    && s.gens[g].worker == Running(WIdle, RIdle, false, false) && s.gens[g].chW == [] && s.gens[g].chR == []
    && NewCallers(s)
  }

  /** A caller's request is in the outgoing queue. */
  ghost predicate Queued(s: World, g: GenId, t: CallerId, w: WorkId, x: Gen) {
    && s.chs == Some(g) && g in s.gens && s.cap > 0
    && s.gens[g] == x.(chW := [w], users := s.gens[g].users)
    && t in s.callers && s.callers[t] == Awaiting(g, w, false) && NewCallers(s)
    && w in s.signals && s.signals[w] == 0
  }

  /** Do of a new work, up to its place in the queue. */
  lemma Submit(s: World, g: GenId, head: bool, resp: RespId)
    requires Quiet(s, g)
    ensures var t, w := s.nextCaller, s.nextWork;
      var s3 := PushStep(AcquireStep(EnterStep(s), t, Call(false, head, Some(resp)), None), t);
      && Queued(s3, g, t, w, s.gens[g]) && s3.raised == s.raised
      && w in s3.req && s3.req[w] == Request(s.nextRequest, head, Callers(resp) in s.raised, Callers(resp), None)
  {
    hide Effect;
  }

  /** The request is on the wire and in flight. */
  ghost predicate Sent(s: World, g: GenId, t: CallerId, w: WorkId, x: Gen, req: Request) {
    && s.chs == Some(g) && g in s.gens && s.cap > 0
    && s.gens[g] == x.(chR := [w], written := x.written + [req], users := s.gens[g].users)
    && t in s.callers && s.callers[t] == Awaiting(g, w, false) && NewCallers(s)
    && w in s.signals && s.signals[w] == 0
  }

  predicate Idle(x: Gen) { x.worker == Running(WIdle, RIdle, false, false) && x.chW == [] && x.chR == [] }

  lemma Transmit(s: World, g: GenId, t: CallerId, w: WorkId, x: Gen)
    requires Queued(s, g, t, w, x) && Idle(x) && w in s.req
    ensures Is(s, g) && Is(WTakeStep(s, g), g) && Is(WWriteStep(WTakeStep(s, g), g, true), g)
    ensures var s3 := WPushStep(WWriteStep(WTakeStep(s, g), g, true), g);
      Sent(s3, g, t, w, x, s.req[w]) && s3.raised == s.raised && s3.req == s.req
  {
    hide Effect;
  }

  /** The channels once the response has been handed over. */
  ghost predicate Settled(s: World, g: GenId, x: Gen, req: Request, wire: Wire) {
    && Quiet(s, g) && s.gens[g].written == x.written + [req] && s.gens[g].credited == x.credited + [req]
    && s.gens[g].wire == wire
  }

  /** The reader has taken the work and read a response into it. */
  ghost predicate Answering(s: World, g: GenId, t: CallerId, w: WorkId, x: Gen, req: Request, wire: Wire) {
    && s.chs == Some(g) && g in s.gens && s.cap > 0
    && s.gens[g] ==
        x.(written := x.written + [req], credited := x.credited + [req], wire := wire, users := s.gens[g].users)
    && t in s.callers && s.callers[t] == Awaiting(g, w, false) && NewCallers(s)
    && w in s.signals && s.signals[w] == 1
  }

  lemma Read(s: World, g: GenId, t: CallerId, w: WorkId, x: Gen, a: Answer, junk: Junk, wire: Wire)
    requires w in s.req && Sent(s, g, t, w, x, s.req[w]) && Idle(x)
    requires ReadResponse(x.wire, x.written + [s.req[w]], s.req[w], a, junk) == Some(wire)
    ensures Is(s, g) && Is(RTakeStep(s, g), g)
    ensures var s2 := RReadStep(RTakeStep(s, g), g, Answered(a, junk));
      Answering(s2, g, t, w, x, s.req[w], wire) && s2.req == s.req && s2.raised == Raise(s, s.req[w]).raised
  {
    hide Effect, ReadResponse;
  }

  lemma HandOver(s: World, g: GenId, t: CallerId, w: WorkId, x: Gen, req: Request, wire: Wire)
    requires Answering(s, g, t, w, x, req, wire) && Idle(x) && w in s.req && s.req[w].copyTo == None
    ensures Waiting(s, t) && Leaves(ReceiveStep(s, t), t)
    ensures var s2 := LeaveStep(ReceiveStep(s, t), t);
      Settled(s2, g, x, req, wire) && s2.raised == s.raised - {Copy(w)}
  {
    hide Effect;
    var s2 := LeaveStep(ReceiveStep(s, t), t);
    forall u | u in s2.callers ensures u < s2.nextCaller { assert u in s.callers; }
  }

  // ---- whole calls

  lemma {:induction false} RunAppend(s: World, xs: seq<Step>, ys: seq<Step>)
    ensures Run(s, xs + ys) == Run(Run(s, xs), ys)
    decreases |ys|
  {
    hide Next;
    if ys == [] {
      assert xs + ys == xs;
    } else {
      RunAppend(s, xs, ys[..|ys| - 1]);
      assert (xs + ys)[..|xs + ys| - 1] == xs + ys[..|ys| - 1];
    }
  }

  lemma RunTwo(s: World, a: Step, b: Step)
    ensures Run(s, [a, b]) == Next(Next(s, a), b)
  {
    hide Next;
    assert [a][..0] == [] && Run(s, []) == s;
    assert Run(s, [a]) == Next(s, a);
    assert [a, b][..1] == [a];
  }

  lemma RunThree(s: World, a: Step, b: Step, c: Step)
    ensures Run(s, [a, b, c]) == Next(Next(Next(s, a), b), c)
  {
    hide Next;
    RunTwo(s, a, b);
    assert [a, b, c][..2] == [a, b];
  }

  function SubmitSteps(t: CallerId, head: bool, resp: RespId): seq<Step> {
    [Enter, AcquireWork(t, Call(false, head, Some(resp)), None), Push(t)]
  }

  function SendSteps(g: GenId): seq<Step> { [WTake(g), WWrite(g, true), WPush(g)] }

  function ReadSteps(g: GenId, a: Answer, junk: Junk): seq<Step> { [RTake(g), RRead(g, Answered(a, junk))] }

  function ReturnSteps(t: CallerId): seq<Step> { [Receive(t), Leave(t)] }

  /** A Do with the Response resp that is answered with a. */
  function CallSteps(t: CallerId, g: GenId, head: bool, resp: RespId, a: Answer, junk: Junk): seq<Step> {
    SubmitSteps(t, head, resp) + (SendSteps(g) + (ReadSteps(g, a, junk) + ReturnSteps(t)))
  }

  lemma SubmitRun(s: World, g: GenId, head: bool, resp: RespId)
    requires Quiet(s, g)
    ensures var t, w, s3 := s.nextCaller, s.nextWork, Run(s, SubmitSteps(s.nextCaller, head, resp));
      && Queued(s3, g, t, w, s.gens[g]) && s3.raised == s.raised
      && w in s3.req && s3.req[w] == Request(s.nextRequest, head, Callers(resp) in s.raised, Callers(resp), None)
  {
    hide Effect, Run, Queued, PushStep, AcquireStep;
    var t, call := s.nextCaller, Call(false, head, Some(resp));
    RunThree(s, Enter, AcquireWork(t, call, None), Push(t));
    Submit(s, g, head, resp);
    SubmitGuards(s, call);
  }

  lemma SubmitGuards(s: World, call: Call)
    ensures var t := s.nextCaller; var s1 := EnterStep(s); Arrived(s1, t) && Holds(AcquireStep(s1, t, call, None), t)
  {
    hide Effect;
  }

  lemma SendRun(s: World, g: GenId, t: CallerId, w: WorkId, x: Gen)
    requires Queued(s, g, t, w, x) && Idle(x) && w in s.req
    ensures var s3 := Run(s, SendSteps(g)); Sent(s3, g, t, w, x, s.req[w]) && s3.raised == s.raised && s3.req == s.req
  {
    hide Effect, Run, Sent, Queued, Idle, WTakeStep, WWriteStep, WPushStep;
    RunThree(s, WTake(g), WWrite(g, true), WPush(g));
    Transmit(s, g, t, w, x);
  }

  lemma ReadRun(s: World, g: GenId, t: CallerId, w: WorkId, x: Gen, a: Answer, junk: Junk, wire: Wire)
    requires w in s.req && Sent(s, g, t, w, x, s.req[w]) && Idle(x)
    requires ReadResponse(x.wire, x.written + [s.req[w]], s.req[w], a, junk) == Some(wire)
    ensures var s2 := Run(s, ReadSteps(g, a, junk));
      Answering(s2, g, t, w, x, s.req[w], wire) && s2.req == s.req && s2.raised == Raise(s, s.req[w]).raised
  {
    hide Effect, Run, Sent, Answering, Idle, RTakeStep, RReadStep, ReadResponse;
    RunTwo(s, RTake(g), RRead(g, Answered(a, junk)));
    Read(s, g, t, w, x, a, junk, wire);
  }

  lemma ReturnRun(s: World, g: GenId, t: CallerId, w: WorkId, x: Gen, req: Request, wire: Wire)
    requires Answering(s, g, t, w, x, req, wire) && Idle(x) && w in s.req && s.req[w].copyTo == None
    ensures var s2 := Run(s, ReturnSteps(t)); Settled(s2, g, x, req, wire) && s2.raised == s.raised - {Copy(w)}
  {
    hide Effect, Run, Answering, Settled, Idle, ReceiveStep, LeaveStep;
    RunTwo(s, Receive(t), Leave(t));
    HandOver(s, g, t, w, x, req, wire);
  }

  /** The request that a Do with the Response resp makes in s. */
  function DoRequest(s: World, head: bool, resp: RespId): Request {
    Request(s.nextRequest, head, Callers(resp) in s.raised, Callers(resp), None)
  }

  /** One whole call on a quiet connection. */
  lemma OneCall(s: World, g: GenId, head: bool, resp: RespId, a: Answer, junk: Junk, wire: Wire)
    requires Quiet(s, g)
    requires ReadResponse(
      s.gens[g].wire, s.gens[g].written + [DoRequest(s, head, resp)], DoRequest(s, head, resp), a, junk)
             == Some(wire)
    ensures var s1 := Run(s, CallSteps(s.nextCaller, g, head, resp, a, junk));
      && Settled(s1, g, s.gens[g], DoRequest(s, head, resp), wire)
      && (head ==> Callers(resp) in s1.raised)
      && (Callers(resp) in s.raised ==> Callers(resp) in s1.raised)
  {
    hide Run, Queued, Sent, Answering, Settled, ReadResponse;
    var t, w, x := s.nextCaller, s.nextWork, s.gens[g];
    SubmitRun(s, g, head, resp);
    var s1 := Run(s, SubmitSteps(t, head, resp));
    SendRun(s1, g, t, w, x);
    var s2 := Run(s1, SendSteps(g));
    ReadRun(s2, g, t, w, x, a, junk, wire);
    var s3 := Run(s2, ReadSteps(g, a, junk));
    ReturnRun(s3, g, t, w, x, s2.req[w], wire);
    RunAppend(s, SubmitSteps(t, head, resp), SendSteps(g) + (ReadSteps(g, a, junk) + ReturnSteps(t)));
    RunAppend(s1, SendSteps(g), ReadSteps(g, a, junk) + ReturnSteps(t));
    RunAppend(s2, ReadSteps(g, a, junk), ReturnSteps(t));
  }

  /** Connecting for the first time. */
  function StartSteps(): seq<Step> { [Enter, TryRetire(0), Connect(0, true)] }

  lemma StartRun(cap: nat)
    requires cap > 0
    ensures var s := Run(Initial(cap), StartSteps());
      Quiet(s, 0) && s.gens[0].wire == FreshWire &&
      s.gens[0].written == [] && s.gens[0].credited == [] && s.raised == {}
  {
    hide Effect, Run;
    RunThree(Initial(cap), Enter, TryRetire(0), Connect(0, true));
  }

  /** From any quiet state in step: a Do of a request other than HEAD whose Response has SkipBody
      set, and whose answer has a body, puts the connection out of step. */
  lemma TrapSprings(s: World, g: GenId, resp: RespId, junk: Junk)
    requires Quiet(s, g) && Callers(resp) in s.raised
    requires InStep(s.gens[g].wire) && |s.gens[g].wire.taken| == |s.gens[g].written|
    ensures var s1 := Run(s, CallSteps(s.nextCaller, g, false, resp, Answer(false, true), junk));
      Quiet(s1, g) && !InStep(s1.gens[g].wire) && s1.gens[g].wire.inBody
  {
    hide Run, Settled;
    var x, a, req := s.gens[g], Answer(false, true), DoRequest(s, false, resp);
    var wire := ReadResponse(x.wire, x.written + [req], req, a, junk);
    OneCall(s, g, false, resp, a, junk, wire.value);
    SettledParts(Run(s, CallSteps(s.nextCaller, g, false, resp, a, junk)), g, x, req, wire.value);
  }

  lemma SettledParts(s: World, g: GenId, x: Gen, req: Request, wire: Wire)
    requires Settled(s, g, x, req, wire)
    ensures Quiet(s, g) && s.gens[g].wire == wire
    ensures s.gens[g].written == x.written + [req] && s.gens[g].credited == x.credited + [req]
  {
  }

  /** HEAD, then GET with the same Response, then a GET with another: the third response is
      parsed out of the body that answers the second request. */
  lemma HeadThenGet(cap: nat, resp: RespId, other: RespId) returns (s: World)
    requires cap > 0 && resp != other
    ensures Reachable(s) && 0 in s.gens
    ensures var x := s.gens[0];
      && |x.written| == |x.credited| == |x.wire.taken| == 3
      && x.written[0].head && !x.written[1].head && !x.written[2].head
      && x.wire.taken[0].source == Some(0) && x.wire.taken[1].source == Some(1) && x.wire.taken[2].source == None
  {
    hide Run, Settled, CallSteps, NewCallers;
    var ok, body, junk := Answer(false, false), Answer(false, true), Junk(0, true);
    StartRun(cap);
    var s0 := Run(Initial(cap), StartSteps());
    var w1 := Wire(1, false, [Response(Some(0), ok)]);
    assert [] + [Response(Some(0), ok)] == w1.taken;
    OneCall(s0, 0, true, resp, ok, junk, w1);
    var steps1 := CallSteps(s0.nextCaller, 0, true, resp, ok, junk);
    var s1 := Run(s0, steps1);
    SettledParts(s1, 0, s0.gens[0], DoRequest(s0, true, resp), w1);
    var w2 := Wire(2, true, [Response(Some(0), ok), Response(Some(1), body)]);
    assert w1.taken + [Response(Some(1), body)] == w2.taken;
    OneCall(s1, 0, false, resp, body, junk, w2);
    var steps2 := CallSteps(s1.nextCaller, 0, false, resp, body, junk);
    var s2 := Run(s1, steps2);
    SettledParts(s2, 0, s1.gens[0], DoRequest(s1, false, resp), w2);
    var w3 := Wire(2, true, [Response(Some(0), ok), Response(Some(1), body), Response(None, ok)]);
    assert w2.taken + [Response(None, ok)] == w3.taken;
    OneCall(s2, 0, false, other, ok, junk, w3);
    var steps3 := CallSteps(s2.nextCaller, 0, false, other, ok, junk);
    s := Run(s2, steps3);
    SettledParts(s, 0, s2.gens[0], DoRequest(s2, false, other), w3);
    RunAppend(Initial(cap), StartSteps(), steps1);
    RunAppend(Initial(cap), StartSteps() + steps1, steps2);
    RunAppend(Initial(cap), StartSteps() + steps1 + steps2, steps3);
  }
}
