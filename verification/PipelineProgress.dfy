/** When each step of the pipelined client can be taken, in which order its channels deliver, and when its
    channels retire (fasthttp/client.go:2865-3042, 3118-3436). */
module PipelineProgress {
  import opened Common
  import opened ResponseWire
  import opened Pipeline
  import opened PipelineInvariants
  import opened PipelineTheorems

  // ---- when a step can be taken

  predicate CanJoin(x: Worker)
    requires x.Running?
  {
    || (x.writer.WDone? && x.reader.RDone?)
    || (x.reader.RDone? && !x.stopW)
    || (x.writer.WDone? && !x.stopR)
  }

  predicate CallerCan(s: World, step: Step, t: CallerId)
    requires t in s.callers
  {
    var c := s.callers[t];
    match step
    case AcquireWork(_, _, _) => c.Inside?
    case Push(_) => c.Holding? && c.g in s.gens && |s.gens[c.g].chW| < s.cap
    case Evict(_) => c.Holding? && !c.timed && !c.evicted && c.g in s.gens
    case SignalVictim(_) => c.Evicting?
    case GiveUpPush(_) => c.Holding? && (c.timed || c.evicted)
    case Receive(_) => c.Awaiting? && Count(s.signals, c.w) > 0
    case Abandon(_) => c.Awaiting? && c.timed
    case Leave(_) => c.Leaving? || c.Inside?
    case _ => false
  }

  predicate WorkerCan(s: World, step: Step, x: Gen) {
    match step
    case TryRetire(_) => x.worker.Top? || x.worker.Bottom?
    case Connect(_, _) => x.worker.Connecting?
    case Join(_) => x.worker.Running? && CanJoin(x.worker)
    case Drain(_) => x.worker.Draining?
    case Discard(_) => x.worker.Discarding?
    case WTake(_) => x.worker.Running? && x.worker.writer.WIdle? && x.chW != []
    case WExpire(_) => x.worker.Running? && x.worker.writer.WHolds?
    case WWrite(_, _) => x.worker.Running? && x.worker.writer.WHolds?
    case WPush(_) => x.worker.Running? && x.worker.writer.WWrote? && |x.chR| < s.cap
    case WGiveUp(_) => x.worker.Running? && x.worker.writer.WWrote?
    case WStop(_) => x.worker.Running? && x.worker.writer.WIdle?
    case RTake(_) => x.worker.Running? && x.worker.reader.RIdle? && x.chR != []
    case RRead(_, out) =>
      && x.worker.Running? && x.worker.reader.RHolds?
      && (out.Answered? ==> x.wire.inBody || x.wire.next < |x.written|)
    case RStop(_) => x.worker.Running? && x.worker.reader.RIdle? && x.worker.stopR
    case _ => false
  }

  predicate OfCaller(step: Step) {
    || step.AcquireWork? || step.Push? || step.Evict? || step.SignalVictim? || step.GiveUpPush? || step.Receive?
    || step.Abandon? || step.Leave?
  }

  predicate Enabled(s: World, step: Step) {
    if step.Enter? then true
    else if step.SetSkipBody? then (Callers(step.r) in s.raised) != step.on
    else if OfCaller(step) then step.t in s.callers && CallerCan(s, step, step.t)
    else step.g in s.gens && WorkerCan(s, step, s.gens[step.g])
  }

  /** A step changes something exactly when it is enabled. */
  lemma EnabledExactly(s: World, step: Step)
    ensures Next(s, step) != s <==> Enabled(s, step)
  {
    if OfCaller(step) {
      CallerMoves(s, step);
    } else if !step.Enter? && !step.SetSkipBody? {
      WorkerMoves(s, step);
    }
  }

  lemma CallerMoves(s: World, step: Step)
    requires OfCaller(step)
    ensures Next(s, step) != s <==> step.t in s.callers && CallerCan(s, step, step.t)
  {
    hide Effect, ReleaseWork, HandedOver, RequestFor;
  }

  /** Other channels are what they were, these are not. */
  lemma Differ(s: World, s1: World, g: GenId)
    requires g in s.gens && g in s1.gens && s1.gens[g] != s.gens[g]
    ensures s1 != s
  {
  }

  lemma FinishGens(s: World, g: GenId, x: Gen, w: WorkId)
    requires g in s.gens
    ensures Finish(s, g, x, w).gens == s.gens[g := x]
  {
  }

  lemma WorkerMoves(s: World, step: Step)
    requires !OfCaller(step) && !step.Enter? && !step.SetSkipBody?
    ensures Next(s, step) != s <==> step.g in s.gens && WorkerCan(s, step, s.gens[step.g])
  {
    if step.g in s.gens {
      hide ConnectStep, DrainStep, DiscardStep, RetireStep, JoinStep, WTakeStep, WExpireStep, WWriteStep, WPushStep,
           WGiveUpStep, WStopStep, RTakeStep, RReadStep, RStopStep, Effect, CanJoin;
      var g, x := step.g, s.gens[step.g];
      match step
      case TryRetire(_) => RetireMoves(s, g);
      case Connect(_, ok) => ChannelsMove(s, g, ok);
      case Drain(_) => ChannelsMove(s, g, true);
      case Discard(_) => ChannelsMove(s, g, true);
      case _ => if Is(s, g) { RunningMoves(s, step); }
    }
  }

  lemma RunningMoves(s: World, step: Step)
    requires !OfCaller(step) && !step.Enter? && !step.SetSkipBody? && Is(s, step.g)
    requires !step.TryRetire? && !step.Connect? && !step.Drain? && !step.Discard?
    ensures Next(s, step) != s <==> WorkerCan(s, step, s.gens[step.g])
  {
    hide JoinStep, WTakeStep, WExpireStep, WWriteStep, WPushStep, WGiveUpStep, WStopStep, RTakeStep, RReadStep,
         RStopStep, Effect, CanJoin;
    match step
    case Join(g) => JoinMoves(s, g);
    case WTake(g) => WTakeMoves(s, g);
    case WExpire(g) => WExpireMoves(s, g);
    case WWrite(g, ok) => WWriteMoves(s, g, ok);
    case WPush(g) => WPushMoves(s, g);
    case WGiveUp(g) => WGiveUpMoves(s, g);
    case WStop(g) => WStopMoves(s, g);
    case RTake(g) => RTakeMoves(s, g);
    case RStop(g) => RStopMoves(s, g);
    case RRead(g, out) => if s.gens[g].worker.reader.RHolds? { ReadMoves(s, g, out); } else { NoRead(s, g, out); }
  }

  lemma NoRead(s: World, g: GenId, out: ReadOutcome)
    requires Is(s, g) && !s.gens[g].worker.reader.RHolds?
    ensures RReadStep(s, g, out) == s
  {
    hide Effect;
  }

  lemma RetireMoves(s: World, g: GenId)
    requires g in s.gens
    ensures RetireStep(s, g) != s <==> s.gens[g].worker.Top? || s.gens[g].worker.Bottom?
  {
    hide Effect, Finish;
    if s.gens[g].worker.Top? || s.gens[g].worker.Bottom? { Differ(s, RetireStep(s, g), g); }
  }

  lemma ChannelsMove(s: World, g: GenId, ok: bool)
    requires g in s.gens
    ensures s.gens[g].worker.Connecting? ==> ConnectStep(s, g, ok) != s
    ensures s.gens[g].worker.Draining? ==> DrainStep(s, g) != s
    ensures s.gens[g].worker.Discarding? ==> DiscardStep(s, g) != s
  {
    hide Effect, Finish, ReleaseWork, RetireStep;
    var x := s.gens[g];
    match x.worker
    case Connecting => Differ(s, ConnectStep(s, g, ok), g);
    case Draining =>
      if x.chR != [] { FinishGens(s, g, x.(chR := x.chR[1..]), x.chR[0]); }
      Differ(s, DrainStep(s, g), g);
    case Discarding =>
      if x.chW != [] { ReleaseGens(SetGen(s, g, x.(chW := x.chW[1..])), x.chW[0]); }
      Differ(s, DiscardStep(s, g), g);
    case _ =>
  }

  lemma ReleaseGens(s: World, w: WorkId)
    ensures ReleaseWork(s, w).gens == s.gens
  {
  }

  lemma JoinMoves(s: World, g: GenId)
    requires Is(s, g)
    ensures JoinStep(s, g) != s <==> CanJoin(s.gens[g].worker)
  {
    hide Effect;
    if CanJoin(s.gens[g].worker) {
      Differ(s, JoinStep(s, g), g);
    } else {
      assert s.gens[g := s.gens[g]] == s.gens;
    }
  }

  lemma WTakeMoves(s: World, g: GenId)
    requires Is(s, g)
    ensures WTakeStep(s, g) != s <==> s.gens[g].worker.writer.WIdle? && s.gens[g].chW != []
  {
    hide Effect, Finish;
    if s.gens[g].worker.writer.WIdle? && s.gens[g].chW != [] { Differ(s, WTakeStep(s, g), g); }
  }

  lemma WExpireMoves(s: World, g: GenId)
    requires Is(s, g)
    ensures WExpireStep(s, g) != s <==> s.gens[g].worker.writer.WHolds?
  {
    hide Effect, Finish;
    var x := s.gens[g];
    if x.worker.writer.WHolds? {
      FinishGens(s, g, x.(worker := x.worker.(writer := WIdle)), x.worker.writer.w);
      Differ(s, WExpireStep(s, g), g);
    }
  }

  lemma WWriteMoves(s: World, g: GenId, ok: bool)
    requires Is(s, g)
    ensures WWriteStep(s, g, ok) != s <==> s.gens[g].worker.writer.WHolds?
  {
    hide Effect, Finish;
    var x := s.gens[g];
    if x.worker.writer.WHolds? {
      FinishGens(s, g, x.(worker := x.worker.(writer := WDone)), x.worker.writer.w);
      Differ(s, WWriteStep(s, g, ok), g);
    }
  }

  lemma WPushMoves(s: World, g: GenId)
    requires Is(s, g)
    ensures WPushStep(s, g) != s <==> s.gens[g].worker.writer.WWrote? && |s.gens[g].chR| < s.cap
  {
    hide Effect, Finish;
    if s.gens[g].worker.writer.WWrote? && |s.gens[g].chR| < s.cap { Differ(s, WPushStep(s, g), g); }
  }

  lemma WGiveUpMoves(s: World, g: GenId)
    requires Is(s, g)
    ensures WGiveUpStep(s, g) != s <==> s.gens[g].worker.writer.WWrote?
  {
    hide Effect, Finish;
    var x := s.gens[g];
    if x.worker.writer.WWrote? {
      FinishGens(s, g, x.(worker := x.worker.(writer := WDone)), x.worker.writer.w);
      Differ(s, WGiveUpStep(s, g), g);
    }
  }

  lemma WStopMoves(s: World, g: GenId)
    requires Is(s, g)
    ensures WStopStep(s, g) != s <==> s.gens[g].worker.writer.WIdle?
  {
    hide Effect, Finish;
    if s.gens[g].worker.writer.WIdle? { Differ(s, WStopStep(s, g), g); }
  }

  lemma RTakeMoves(s: World, g: GenId)
    requires Is(s, g)
    ensures RTakeStep(s, g) != s <==> s.gens[g].worker.reader.RIdle? && s.gens[g].chR != []
  {
    hide Effect, Finish;
    if s.gens[g].worker.reader.RIdle? && s.gens[g].chR != [] { Differ(s, RTakeStep(s, g), g); }
  }

  lemma RStopMoves(s: World, g: GenId)
    requires Is(s, g)
    ensures RStopStep(s, g) != s <==> s.gens[g].worker.reader.RIdle? && s.gens[g].worker.stopR
  {
    hide Effect, Finish;
    if s.gens[g].worker.reader.RIdle? && s.gens[g].worker.stopR { Differ(s, RStopStep(s, g), g); }
  }

  lemma ReadMoves(s: World, g: GenId, out: ReadOutcome)
    requires Is(s, g) && s.gens[g].worker.reader.RHolds?
    ensures RReadStep(s, g, out) != s <==>
      (out.Answered? ==> s.gens[g].wire.inBody || s.gens[g].wire.next < |s.gens[g].written|)
  {
    hide Effect, Finish;
    var x := s.gens[g];
    var w := x.worker.reader.w;
    var req := RequestOf(s.req, w);
    var done := x.(worker := x.worker.(reader := RDone));
    FinishGens(s, g, done, w);
    FinishGens(Raise(s, req), g, done, w);
    if !out.Answered? {
      Differ(s, RReadStep(s, g, out), g);
    } else if ReadResponse(x.wire, x.written, req, out.a, out.junk).Some? {
      FinishGens(Raise(s, req), g, Credit(x, req, ReadResponse(x.wire, x.written, req, out.a, out.junk).value), w);
      Differ(s, RReadStep(s, g, out), g);
    }
  }

  // ---- channels are queues

  /** Nothing happens to a queue, or one is added behind, or the first is taken. */
  predicate Lane(a: seq<WorkId>, b: seq<WorkId>) {
    || b == a
    || (|b| == |a| + 1 && b[..|a|] == a)
    || (|a| == |b| + 1 && a[1..] == b)
  }

  predicate Lanes(x: Gen, x1: Gen) { Lane(x.chW, x1.chW) && Lane(x.chR, x1.chR) }

  lemma StepLanes(s: World, step: Step, g: GenId)
    requires g in s.gens
    ensures g in Next(s, step).gens && Lanes(s.gens[g], Next(s, step).gens[g])
  {
    hide Effect, Lanes;
    SameLanes(s.gens[g]);
    if Channels(s, step) != g {
      hide Next;
      StepEffect(s, step);
      EffectElsewhere(s, Next(s, step), Channels(s, step), g);
    } else if OfCaller(step) {
      if step.t in s.callers { CallerLanes(s, step); }
    } else if !step.Enter? && !step.SetSkipBody? {
      WorkerLanes(s, step);
    }
  }

  lemma LaneSame(q: seq<WorkId>)
    ensures Lane(q, q)
  {
  }

  lemma LanePut(q: seq<WorkId>, w: WorkId)
    ensures Lane(q, q + [w])
  {
  }

  lemma LaneTake(q: seq<WorkId>)
    requires q != []
    ensures Lane(q, q[1..])
  {
  }

  lemma SameLanes(x: Gen)
    ensures forall x1: Gen :: x1.chW == x.chW && x1.chR == x.chR ==> Lanes(x, x1)
  {
  }

  lemma CallerLanes(s: World, step: Step)
    requires OfCaller(step) && step.t in s.callers && s.callers[step.t].g in s.gens
    ensures var g := s.callers[step.t].g; g in Next(s, step).gens && Lanes(s.gens[g], Next(s, step).gens[g])
  {
    hide Effect, HandedOver, RequestFor, ReleaseWork, Signal, Lanes, PushStep, EvictStep, Pooled;
    SameLanes(s.gens[s.callers[step.t].g]);
    match step
    case Push(t) => if s.callers[t].Holding? { PushLanes(s, t); }
    case Evict(t) => if s.callers[t].Holding? { EvictLanes(s, t); }
    case AcquireWork(t, call, reuse) => if s.callers[t].Inside? { PooledGens(s, reuse); }
    case SignalVictim(t) => if s.callers[t].Evicting? { SignalGens(s, s.callers[t].victim); }
    case GiveUpPush(t) => if s.callers[t].Holding? { ReleaseGens(s, s.callers[t].w); }
    case Receive(t) =>
      if s.callers[t].Awaiting? && Count(s.signals, s.callers[t].w) > 0 { ReceiveGens(s, t); }
    case _ =>
  }

  lemma PooledGens(s: World, reuse: Option<WorkId>)
    ensures Pooled(s, reuse).gens == s.gens && Pooled(s, reuse).callers == s.callers
  {
    hide Effect, In;
    if reuse.Some? && reuse.value in s.workPool {
      assert Pooled(s, reuse) == s.(workPool := s.workPool - {reuse.value});
    } else {
      assert Pooled(s, reuse).gens == s.gens;
    }
  }

  lemma SignalGens(s: World, w: WorkId)
    ensures Signal(s, w).gens == s.gens
  {
  }

  lemma ReceiveGens(s: World, t: CallerId)
    requires t in s.callers && s.callers[t].Awaiting?
    ensures ReceiveStep(s, t).gens == s.gens
  {
    hide Effect, HandedOver;
  }

  lemma PushLanes(s: World, t: CallerId)
    requires Holds(s, t) && s.callers[t].g in s.gens
    ensures var g := s.callers[t].g; g in PushStep(s, t).gens && Lanes(s.gens[g], PushStep(s, t).gens[g])
  {
    hide Effect, Lane;
    var x := s.gens[s.callers[t].g];
    LaneSame(x.chW);
    LaneSame(x.chR);
    LanePut(x.chW, s.callers[t].w);
  }

  lemma EvictLanes(s: World, t: CallerId)
    requires Holds(s, t) && s.callers[t].g in s.gens
    ensures var g := s.callers[t].g; g in EvictStep(s, t).gens && Lanes(s.gens[g], EvictStep(s, t).gens[g])
  {
    hide Effect, Lane;
    var x := s.gens[s.callers[t].g];
    LaneSame(x.chW);
    LaneSame(x.chR);
    if x.chW != [] { LaneTake(x.chW); }
  }

  lemma WorkerLanes(s: World, step: Step)
    requires !OfCaller(step) && !step.Enter? && !step.SetSkipBody? && step.g in s.gens
    ensures step.g in Next(s, step).gens && Lanes(s.gens[step.g], Next(s, step).gens[step.g])
  {
    hide Effect, WTakeStep, WPushStep, RTakeStep, RReadStep, WWriteStep, WExpireStep, WGiveUpStep, DrainStep,
         DiscardStep, RetireStep, ConnectStep, JoinStep, WStopStep, RStopStep, Lanes;
    SameLanes(s.gens[step.g]);
    match step
    case TryRetire(g) => FlagLanes(s, g, true);
    case Connect(g, ok) => FlagLanes(s, g, ok);
    case Join(g) => if Is(s, g) { StopLanes(s, g); }
    case WStop(g) => if Is(s, g) { StopLanes(s, g); }
    case RStop(g) => if Is(s, g) { StopLanes(s, g); }
    case WTake(g) => if Is(s, g) { WTakeLanes(s, g); }
    case WPush(g) => if Is(s, g) { WPushLanes(s, g); }
    case RTake(g) => if Is(s, g) { RTakeLanes(s, g); }
    case Drain(g) => if s.gens[g].worker.Draining? { DrainLanes(s, g); }
    case Discard(g) => if s.gens[g].worker.Discarding? { DrainLanes(s, g); }
    case RRead(g, out) => if Is(s, g) { ReadLanes(s, g, out); }
    case WWrite(g, ok) => if Is(s, g) { WriteLanes(s, g, ok); }
    case WExpire(g) => if Is(s, g) { WriteLanes(s, g, true); }
    case WGiveUp(g) => if Is(s, g) { WriteLanes(s, g, true); }
  }

  lemma FlagLanes(s: World, g: GenId, ok: bool)
    requires g in s.gens
    ensures g in RetireStep(s, g).gens && Lanes(s.gens[g], RetireStep(s, g).gens[g])
    ensures g in ConnectStep(s, g, ok).gens && Lanes(s.gens[g], ConnectStep(s, g, ok).gens[g])
  {
    hide Effect, Lane;
    LaneSame(s.gens[g].chW);
    LaneSame(s.gens[g].chR);
  }

  lemma StopLanes(s: World, g: GenId)
    requires Is(s, g)
    ensures g in JoinStep(s, g).gens && Lanes(s.gens[g], JoinStep(s, g).gens[g])
    ensures g in WStopStep(s, g).gens && Lanes(s.gens[g], WStopStep(s, g).gens[g])
    ensures g in RStopStep(s, g).gens && Lanes(s.gens[g], RStopStep(s, g).gens[g])
  {
    hide Effect, Lane;
    LaneSame(s.gens[g].chW);
    LaneSame(s.gens[g].chR);
  }

  lemma WTakeLanes(s: World, g: GenId)
    requires Is(s, g)
    ensures g in WTakeStep(s, g).gens && Lanes(s.gens[g], WTakeStep(s, g).gens[g])
  {
    hide Effect, Lane;
    var x := s.gens[g];
    LaneSame(x.chW);
    LaneSame(x.chR);
    if x.chW != [] { LaneTake(x.chW); }
  }

  lemma WPushLanes(s: World, g: GenId)
    requires Is(s, g)
    ensures g in WPushStep(s, g).gens && Lanes(s.gens[g], WPushStep(s, g).gens[g])
  {
    hide Effect, Lane;
    var x := s.gens[g];
    LaneSame(x.chW);
    LaneSame(x.chR);
    if x.worker.writer.WWrote? { LanePut(x.chR, x.worker.writer.w); }
  }

  lemma RTakeLanes(s: World, g: GenId)
    requires Is(s, g)
    ensures g in RTakeStep(s, g).gens && Lanes(s.gens[g], RTakeStep(s, g).gens[g])
  {
    hide Effect, Lane;
    var x := s.gens[g];
    LaneSame(x.chW);
    LaneSame(x.chR);
    if x.chR != [] { LaneTake(x.chR); }
  }

  lemma DrainLanes(s: World, g: GenId)
    requires g in s.gens
    ensures g in DrainStep(s, g).gens && Lanes(s.gens[g], DrainStep(s, g).gens[g])
    ensures g in DiscardStep(s, g).gens && Lanes(s.gens[g], DiscardStep(s, g).gens[g])
  {
    hide Effect, Finish, ReleaseWork, Lane;
    var x := s.gens[g];
    LaneSame(x.chW);
    LaneSame(x.chR);
    if x.chR != [] {
      LaneTake(x.chR);
      FinishGens(s, g, x.(chR := x.chR[1..]), x.chR[0]);
    }
    if x.chW != [] {
      LaneTake(x.chW);
      ReleaseGens(SetGen(s, g, x.(chW := x.chW[1..])), x.chW[0]);
    }
  }

  lemma WriteLanes(s: World, g: GenId, ok: bool)
    requires Is(s, g)
    ensures g in WWriteStep(s, g, ok).gens && Lanes(s.gens[g], WWriteStep(s, g, ok).gens[g])
    ensures g in WExpireStep(s, g).gens && Lanes(s.gens[g], WExpireStep(s, g).gens[g])
    ensures g in WGiveUpStep(s, g).gens && Lanes(s.gens[g], WGiveUpStep(s, g).gens[g])
  {
    hide Effect, Finish, Lane;
    var x := s.gens[g];
    LaneSame(x.chW);
    LaneSame(x.chR);
    if x.worker.writer.WHolds? || x.worker.writer.WWrote? {
      FinishGens(s, g, x.(worker := x.worker.(writer := WIdle)), x.worker.writer.w);
      FinishGens(s, g, x.(worker := x.worker.(writer := WDone)), x.worker.writer.w);
    }
  }

  lemma ReadLanes(s: World, g: GenId, out: ReadOutcome)
    requires Is(s, g)
    ensures g in RReadStep(s, g, out).gens && Lanes(s.gens[g], RReadStep(s, g, out).gens[g])
  {
    hide Effect, Finish, ReadResponse, Lane;
    var x := s.gens[g];
    LaneSame(x.chW);
    LaneSame(x.chR);
    if x.worker.reader.RHolds? {
      var w := x.worker.reader.w;
      var req := RequestOf(s.req, w);
      var done := x.(worker := x.worker.(reader := RDone));
      FinishGens(s, g, done, w);
      FinishGens(Raise(s, req), g, done, w);
      if out.Answered? && ReadResponse(x.wire, x.written, req, out.a, out.junk).Some? {
        FinishGens(Raise(s, req), g, Credit(x, req, ReadResponse(x.wire, x.written, req, out.a, out.junk).value), w);
      }
    }
  }

  function Added(a: seq<WorkId>, b: seq<WorkId>): seq<WorkId> { if |a| < |b| then b[|a|..] else [] }

  function Removed(a: seq<WorkId>, b: seq<WorkId>): seq<WorkId> { if |a| > |b| then a[..|a| - |b|] else [] }

  /** The works that were put into a queue during a run, and those that were taken out of it, in order;
      `out` tells whether it is the outgoing one. */
  ghost function Came(s: World, steps: seq<Step>, g: GenId, out: bool): seq<WorkId>
    requires g in s.gens
  {
    if steps == [] then []
    else Came(s, steps[..|steps| - 1], g, out) + Added(Before(s, steps, g, out), After(s, steps, g, out))
  }

  ghost function Went(s: World, steps: seq<Step>, g: GenId, out: bool): seq<WorkId>
    requires g in s.gens
  {
    if steps == [] then []
    else Went(s, steps[..|steps| - 1], g, out) + Removed(Before(s, steps, g, out), After(s, steps, g, out))
  }

  ghost function Queue(s: World, g: GenId, out: bool): seq<WorkId> {
    if g !in s.gens then [] else if out then s.gens[g].chW else s.gens[g].chR
  }

  ghost function Before(s: World, steps: seq<Step>, g: GenId, out: bool): seq<WorkId>
    requires steps != []
  {
    Queue(Run(s, steps[..|steps| - 1]), g, out)
  }

  ghost function After(s: World, steps: seq<Step>, g: GenId, out: bool): seq<WorkId> { Queue(Run(s, steps), g, out) }

  lemma LaneMoves(a: seq<WorkId>, b: seq<WorkId>)
    requires Lane(a, b)
    ensures a + Added(a, b) == Removed(a, b) + b
  {
    if |b| == |a| + 1 { assert b == b[..|a|] + b[|a|..]; }
    if |a| == |b| + 1 { assert a == a[..1] + a[1..]; }
  }

  /** Over any run works leave a channel in the order in which they came to it, whoever takes them: the
      writer, a caller that evicts the oldest, or the worker that discards them. */
  lemma {:induction false} FifoChannels(s: World, steps: seq<Step>, g: GenId, out: bool)
    requires g in s.gens
    ensures g in Run(s, steps).gens
    ensures Queue(s, g, out) + Came(s, steps, g, out) == Went(s, steps, g, out) + Queue(Run(s, steps), g, out)
  {
    hide Next, Lane, Added, Removed;
    if steps != [] {
      var front := steps[..|steps| - 1];
      FifoChannels(s, front, g, out);
      StepLanes(Run(s, front), steps[|steps| - 1], g);
      var a, b := Before(s, steps, g, out), After(s, steps, g, out);
      LaneMoves(a, b);
      Rebracket(Queue(s, g, out), Came(s, front, g, out), Went(s, front, g, out), a, b);
    }
  }

  lemma Rebracket(q: seq<WorkId>, c: seq<WorkId>, w: seq<WorkId>, a: seq<WorkId>, b: seq<WorkId>)
    requires q + c == w + a && a + Added(a, b) == Removed(a, b) + b
    ensures q + (c + Added(a, b)) == w + Removed(a, b) + b
  {
    hide Added, Removed;
    calc {
      q + (c + Added(a, b));
      q + c + Added(a, b);
      w + a + Added(a, b);
      w + (a + Added(a, b));
      w + (Removed(a, b) + b);
      w + Removed(a, b) + b;
    }
  }

  // ---- retirement

  lemma NoUsersIff(s: World, g: GenId)
    requires UsersOk(s) && g in s.gens
    ensures s.gens[g].users == 0 <==> forall t :: t in s.callers ==> s.callers[t].g != g
  {
    if t :| t in s.callers && s.callers[t].g == g {
      assert t in UsersOf(s, g);
    } else {
      assert UsersOf(s, g) == {};
    }
  }

  /** A worker between two connections retires its channels exactly when no caller uses them and nothing
      is in flight, whatever works are still queued; they stay queued. */
  lemma RetiresExactly(s: World, g: GenId)
    requires Reachable(s) && g in s.gens && (s.gens[g].worker.Top? || s.gens[g].worker.Bottom?)
    ensures var s1 := Next(s, TryRetire(g));
      && g in s1.gens && s1.gens[g].chW == s.gens[g].chW
      && (Retired(s1.gens[g].worker) <==>
            && s.chs == Some(g) && (forall t :: t in s.callers ==> s.callers[t].g != g)
            && forall w :: !In(s, InFlight(g), w))
      && (Retired(s1.gens[g].worker) ==> s1.gens[g].worker.Discarding? && s1.chs == None)
      && (!Retired(s1.gens[g].worker) ==> s1.chs == s.chs)
  {
    hide In;
    InFlightIs(s, g);
    RetireDoes(s, g);
    NextRetire(s, g);
    ReachableInv(s);
    hide Reachable, Next, RetireStep, PlacesOk, SignalsOk, WaitersOk, GensOk;
    NoUsersIff(s, g);
  }

  lemma InFlightIs(s: World, g: GenId)
    requires g in s.gens
    ensures s.gens[g].chR == [] <==> forall w :: !In(s, InFlight(g), w)
  {
    if s.gens[g].chR != [] { assert In(s, InFlight(g), s.gens[g].chR[0]); }
  }

  lemma RetireDoes(s: World, g: GenId)
    requires g in s.gens && (s.gens[g].worker.Top? || s.gens[g].worker.Bottom?)
    ensures var s1, x := RetireStep(s, g), s.gens[g];
      && g in s1.gens && s1.gens[g].chW == x.chW
      && (Retired(s1.gens[g].worker) <==> s.chs == Some(g) && x.users == 0 && x.chR == [])
      && (Retired(s1.gens[g].worker) ==> s1.gens[g].worker.Discarding? && s1.chs == None)
      && (!Retired(s1.gens[g].worker) ==> s1.chs == s.chs)
  {
    hide Effect;
    var s1, x := RetireStep(s, g), s.gens[g];
    assert s1.gens[g] ==
      if s.chs == Some(g) && x.users == 0 && |x.chR| == 0 then x.(worker := Discarding)
      else x.(worker := if x.worker.Top? then Connecting else Top);
  }

  lemma NextRetire(s: World, g: GenId)
    requires g in s.gens
    ensures Next(s, TryRetire(g)) == RetireStep(s, g)
  {
    hide RetireStep;
  }

  function Discards(g: GenId, n: nat): seq<Step> { seq(n, _ => Discard(g)) }

  /** The pool has got ws, the channels g have become x, and nothing else has changed. */
  ghost predicate GaveBack(s: World, s1: World, g: GenId, x: Gen, ws: seq<WorkId>) {
    && s1.workPool == s.workPool + Elems(ws)
    && s1.gens == s.gens[g := x]
    && s1.callers == s.callers && s1.signals == s.signals && s1.chs == s.chs
    && (forall r :: Callers(r) in s1.raised <==> Callers(r) in s.raised)
  }

  lemma DiscardOne(s: World, g: GenId)
    requires g in s.gens && s.gens[g].worker.Discarding? && s.gens[g].chW != []
    ensures var x := s.gens[g]; GaveBack(s, Next(s, Discard(g)), g, x.(chW := x.chW[1..]), [x.chW[0]])
  {
    hide Effect;
  }

  lemma GaveTwice(s: World, s1: World, s2: World, g: GenId, x: Gen, y: Gen, ws: seq<WorkId>, w: WorkId)
    requires GaveBack(s, s1, g, x, ws) && GaveBack(s1, s2, g, y, [w])
    ensures GaveBack(s, s2, g, y, ws + [w])
  {
    assert s.gens[g := x][g := y] == s.gens[g := y];
  }

  /** Retired channels give exactly their works back to the pool, and then the worker is gone; nothing
      else changes but that these works' own Responses are reset. */
  lemma {:induction false} DiscardsGiveBack(s: World, g: GenId, n: nat)
    requires g in s.gens && s.gens[g].worker.Discarding? && n <= |s.gens[g].chW|
    ensures var x := s.gens[g]; GaveBack(s, Run(s, Discards(g, n)), g, x.(chW := x.chW[n..]), x.chW[..n])
    decreases n
  {
    hide Next;
    var x := s.gens[g];
    if n == 0 {
      assert Discards(g, 0) == [] && x.chW[0..] == x.chW && x.chW[..0] == [];
      assert s.gens[g := x] == s.gens;
    } else {
      DiscardsGiveBack(s, g, n - 1);
      assert Discards(g, n)[..n - 1] == Discards(g, n - 1);
      var s0, y := Run(s, Discards(g, n - 1)), x.(chW := x.chW[n - 1..]);
      assert Run(s, Discards(g, n)) == Next(s0, Discard(g));
      assert s0.gens[g] == y;
      hide Run, Discards, GaveBack;
      DiscardOne(s0, g);
      assert y.chW[1..] == x.chW[n..] && x.chW[..n] == x.chW[..n - 1] + [y.chW[0]];
      GaveTwice(s, s0, Next(s0, Discard(g)), g, y, x.(chW := x.chW[n..]), x.chW[..n - 1], y.chW[0]);
    }
  }

  lemma DiscardsAll(s: World, g: GenId)
    requires g in s.gens && s.gens[g].worker.Discarding?
    ensures var n := |s.gens[g].chW|;
      var s1 := Run(s, Discards(g, n + 1));
      && s1.workPool == s.workPool + Elems(s.gens[g].chW)
      && g in s1.gens && s1.gens[g].worker.Gone? && s1.gens[g].chW == []
  {
    hide Effect;
    var n := |s.gens[g].chW|;
    DiscardsGiveBack(s, g, n);
    assert Discards(g, n + 1)[..n] == Discards(g, n);
    var s0 := Run(s, Discards(g, n));
    assert Run(s, Discards(g, n + 1)) == Next(s0, Discard(g));
    hide Run;
    assert s.gens[g].chW[..n] == s.gens[g].chW;
  }

  // ---- what a caller gets

  /** A caller that receives gets its work back to the pool with its own Response reset. DoDeadline hands
      SkipBody over to the caller's Response as the answer left it; no other Response changes. */
  lemma ReceiveHands(s: World, t: CallerId)
    requires Waiting(s, t) && Count(s.signals, s.callers[t].w) > 0
    ensures var w, s1 := s.callers[t].w, Next(s, Receive(t));
      var to := RequestOf(s.req, w).copyTo;
      && s1.callers == s.callers[t := Leaving(s.callers[t].g)] && s1.workPool == s.workPool + {w}
      && Copy(w) !in s1.raised && Count(s1.signals, w) == Count(s.signals, w) - 1
      && (forall r: RespId :: to != Some(r) ==> (Callers(r) in s1.raised <==> Callers(r) in s.raised))
      && (to.Some? ==> (Callers(to.value) in s1.raised <==> Copy(w) in s.raised))
  {
    hide Effect;
  }

  /** What a call asks for. Do reads into the caller's Response, if there is one; DoDeadline reads into the
      work's own and will hand it over. SkipBody is that of the Response that is read into. */
  lemma AcquireAsks(s: World, t: CallerId, call: Call, reuse: Option<WorkId>)
    requires Arrived(s, t)
    ensures var s1 := Next(s, AcquireWork(t, call, reuse));
      && s1.callers[t].Holding? && s1.callers[t].timed == call.timed && !s1.callers[t].evicted
      && var w := s1.callers[t].w;
      && (w in s.workPool || w == s.nextWork) && w in s1.req
      && s1.req[w].head == call.head && s1.req[w].id == s.nextRequest
      && s1.req[w].into == (if !call.timed && call.resp.Some? then Callers(call.resp.value) else Copy(w))
      && s1.req[w].copyTo == (if call.timed then call.resp else None)
      && (s1.req[w].skip <==> s1.req[w].into in s.raised)
  {
    hide Effect, Pooled, Acquired, Assign;
    var w, s0 := Acquired(s, reuse), Pooled(s, reuse);
    PooledGens(s, reuse);
    PooledKeeps(s, reuse);
    AssignAsks(s0, t, w, call);
  }

  lemma PooledKeeps(s: World, reuse: Option<WorkId>)
    ensures Pooled(s, reuse).nextRequest == s.nextRequest && Pooled(s, reuse).raised == s.raised
    ensures Acquired(s, reuse) in s.workPool || Acquired(s, reuse) == s.nextWork
  {
    hide Effect, In;
    if reuse.Some? && reuse.value in s.workPool {
      assert Pooled(s, reuse) == s.(workPool := s.workPool - {reuse.value});
    } else {
      assert Pooled(s, reuse).nextRequest == s.nextRequest;
    }
  }

  lemma AssignAsks(s: World, t: CallerId, w: WorkId, call: Call)
    requires t in s.callers
    ensures var s1 := Assign(s, t, w, call);
      && s1.callers[t] == Holding(s.callers[t].g, w, call.timed, false)
      && w in s1.req && s1.req[w].head == call.head && s1.req[w].id == s.nextRequest
      && s1.req[w].into == (if !call.timed && call.resp.Some? then Callers(call.resp.value) else Copy(w))
      && s1.req[w].copyTo == (if call.timed then call.resp else None)
      && (s1.req[w].skip <==> s1.req[w].into in s.raised)
  {
  }

  /** A new connection starts with nothing written and nothing owed; without one the worker may retire. */
  lemma ConnectStarts(s: World, g: GenId)
    requires g in s.gens && s.gens[g].worker.Connecting?
    ensures var x := Next(s, Connect(g, true)).gens[g];
      && x.written == [] && x.credited == [] && x.wire == FreshWire && x.chW == s.gens[g].chW && x.chR == s.gens[g].chR
      && x.worker == Running(WIdle, RIdle, false, false)
    ensures Next(s, Connect(g, false)).gens[g] == s.gens[g].(worker := Bottom)
  {
    hide Effect;
  }

  // ---- where everybody goes

  /** Do takes the oldest work out once; if none is left it tries again. */
  lemma EvictGoesOn(s: World, t: CallerId)
    requires Holds(s, t) && !s.callers[t].timed && !s.callers[t].evicted && s.callers[t].g in s.gens
    ensures var c := s.callers[t];
      EvictStep(s, t).callers == s.callers[t :=
        if s.gens[c.g].chW == [] then Holding(c.g, c.w, false, true) else Evicting(c.g, c.w, s.gens[c.g].chW[0])]
  {
    hide Effect;
  }

  /** The evicted work is signalled, and nobody evicts twice. */
  lemma SignalGoesOn(s: World, t: CallerId)
    requires Evicts(s, t)
    ensures var c := s.callers[t];
      && SignalVictimStep(s, t).callers == s.callers[t := Holding(c.g, c.w, false, true)]
      && Count(SignalVictimStep(s, t).signals, c.victim) == Count(s.signals, c.victim) + 1
  {
    hide Effect;
  }

  lemma PushGoesOn(s: World, t: CallerId)
    requires Holds(s, t) && s.callers[t].g in s.gens && |s.gens[s.callers[t].g].chW| < s.cap
    ensures PushStep(s, t).callers == s.callers[t := Awaiting(s.callers[t].g, s.callers[t].w, s.callers[t].timed)]
  {
    hide Effect;
  }

  /** A work that was never enqueued goes back to the pool; one that is left behind does not. */
  lemma GiveUpGoesOn(s: World, t: CallerId)
    requires GivesUp(s, t)
    ensures GiveUpStep(s, t).callers == s.callers[t := Leaving(s.callers[t].g)]
    ensures GiveUpStep(s, t).workPool == s.workPool + {s.callers[t].w}
  {
    hide Effect;
  }

  lemma AbandonGoesOn(s: World, t: CallerId)
    requires Waiting(s, t)
    ensures AbandonStep(s, t).callers == s.callers[t := Leaving(s.callers[t].g)]
    ensures AbandonStep(s, t).workPool == s.workPool && AbandonStep(s, t).gens == s.gens
  {
    hide Effect;
  }

  lemma LeaveGoesOn(s: World, t: CallerId)
    requires Leaves(s, t)
    ensures LeaveStep(s, t).callers == s.callers - {t}
  {
    hide Effect;
  }

  /** A writer goes on after a work that expired or was passed on, and stops after a failed write. */
  lemma TakeGoesOn(s: World, g: GenId)
    requires Is(s, g) && s.gens[g].worker.writer.WIdle? && s.gens[g].chW != []
    ensures WriterIs(WTakeStep(s, g), g, WHolds(s.gens[g].chW[0]))
  {
    hide Effect;
  }

  lemma ExpireGoesOn(s: World, g: GenId)
    requires Is(s, g) && s.gens[g].worker.writer.WHolds?
    ensures WriterIs(WExpireStep(s, g), g, WIdle)
  {
    hide Effect, Finish;
    var x := s.gens[g];
    FinishGens(s, g, x.(worker := x.worker.(writer := WIdle)), x.worker.writer.w);
  }

  lemma WriteGoesOn(s: World, g: GenId)
    requires Is(s, g) && s.gens[g].worker.writer.WHolds?
    ensures WriterIs(WWriteStep(s, g, true), g, WWrote(s.gens[g].worker.writer.w))
    ensures WriterIs(WWriteStep(s, g, false), g, WDone)
  {
    hide Effect, Finish;
    var x := s.gens[g];
    FinishGens(s, g, x.(worker := x.worker.(writer := WDone)), x.worker.writer.w);
  }

  lemma PassGoesOn(s: World, g: GenId)
    requires Is(s, g) && s.gens[g].worker.writer.WWrote? && |s.gens[g].chR| < s.cap
    ensures WriterIs(WPushStep(s, g), g, WIdle)
  {
    hide Effect;
  }

  lemma StopGoesOn(s: World, g: GenId)
    requires Is(s, g)
    ensures s.gens[g].worker.writer.WWrote? ==> WriterIs(WGiveUpStep(s, g), g, WDone)
    ensures s.gens[g].worker.writer.WIdle? ==> WriterIs(WStopStep(s, g), g, WDone)
  {
    hide Effect, Finish;
    var x := s.gens[g];
    if x.worker.writer.WWrote? { FinishGens(s, g, x.(worker := x.worker.(writer := WDone)), x.worker.writer.w); }
  }

  predicate WriterIs(s: World, g: GenId, w: Writer) { Is(s, g) && s.gens[g].worker.writer == w }

  predicate ReaderIs(s: World, g: GenId, r: Reader) { Is(s, g) && s.gens[g].worker.reader == r }

  /** The reader raises SkipBody for HEAD before it reads, also if that fails, but not if it cannot set its
      deadline; no other Response is touched. */
  lemma ReaderGoesOn(s: World, g: GenId, out: ReadOutcome)
    requires Is(s, g) && s.gens[g].worker.reader.RHolds? && Enabled(s, RRead(g, out))
    ensures var w := s.gens[g].worker.reader.w;
      var req, s1 := RequestOf(s.req, w), Next(s, RRead(g, out));
      && ReaderIs(s1, g, if out.Answered? then RIdle else RDone)
      && s1.raised == s.raised + (if req.head && !out.DeadlineFails? then {req.into} else {})
      && Count(s1.signals, w) == Count(s.signals, w) + 1
  {
    hide Effect;
  }
}
