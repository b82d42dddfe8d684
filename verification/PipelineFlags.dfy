/** Where SkipBody comes from: only a Response of the caller can carry it into a request. */
module PipelineFlags {
  import opened Common
  import opened ResponseWire
  import opened Pipeline
  import opened PipelineInvariants

  /** The work's own Response has the flag set only between the reading of a response and the
      work's release. */
  predicate CopyOk(s: World, w: WorkId) { Copy(w) in s.raised ==> w in s.place && s.place[w] == Signalled }

  predicate RequestOk(r: Request) { r.into.Copy? ==> !r.skip }

  ghost predicate CopiesOk(s: World) { forall w :: CopyOk(s, w) }

  /** A request that is not read into the caller's Response is read into its own work's. */
  ghost predicate RequestsOk(req: map<WorkId, Request>) {
    forall w :: w in req ==> RequestOk(req[w]) && (req[w].into.Copy? ==> req[w].into == Copy(w))
  }

  ghost predicate WrittenOk(x: Gen) { forall k :: 0 <= k < |x.written| ==> RequestOk(x.written[k]) }

  ghost predicate FlagsOk(s: World) {
    CopiesOk(s) && RequestsOk(s.req) && forall g :: g in s.gens ==> WrittenOk(s.gens[g])
  }

  lemma OneCopy(s: World, w: WorkId)
    requires CopiesOk(s)
    ensures CopyOk(s, w)
  {
  }

  lemma CopiesFrom(s: World)
    requires forall w :: CopyOk(s, w)
    ensures CopiesOk(s)
  {
  }

  // ---- the flag

  /** One work moves, which was not signalled, and no flag of a copy goes up but that of a work
      that is signalled now. */
  lemma CopiesMove(s: World, s1: World, w: WorkId, p: Place)
    requires CopiesOk(s) && s1.place == s.place[w := p]
    requires w !in s.place || s.place[w] != Signalled || Copy(w) !in s1.raised || p == Signalled
    requires forall v :: Copy(v) in s1.raised ==> Copy(v) in s.raised || (v == w && p == Signalled)
    ensures CopiesOk(s1)
  {
    hide CopiesOk;
    forall v ensures CopyOk(s1, v) { OneCopy(s, v); }
    CopiesFrom(s1);
  }

  lemma CopiesStay(s: World, s1: World)
    requires CopiesOk(s) && s1.place == s.place && forall v :: Copy(v) in s1.raised ==> Copy(v) in s.raised
    ensures CopiesOk(s1)
  {
    hide CopiesOk;
    forall v ensures CopyOk(s1, v) { OneCopy(s, v); }
    CopiesFrom(s1);
  }

  // ---- steps of callers

  lemma QueueCopies(s: World, t: CallerId)
    requires CopiesOk(s) && PlacesOk(s) && Holds(s, t)
    ensures CopiesOk(PushStep(s, t)) && CopiesOk(GiveUpStep(s, t))
  {
    hide CopiesOk, PlacesOk;
    var g, w := s.callers[t].g, s.callers[t].w;
    Lies(s, Mine(t), w);
    if PushStep(s, t) != s { CopiesMove(s, PushStep(s, t), w, Outgoing(g)); }
    if GiveUpStep(s, t) != s { CopiesMove(s, GiveUpStep(s, t), w, Free); }
  }

  lemma EvictCopies(s: World, t: CallerId)
    requires CopiesOk(s) && PlacesOk(s)
    ensures Holds(s, t) ==> CopiesOk(EvictStep(s, t))
    ensures Evicts(s, t) ==> CopiesOk(SignalVictimStep(s, t))
  {
    hide CopiesOk, PlacesOk;
    if Holds(s, t) {
      var g, s1 := s.callers[t].g, EvictStep(s, t);
      if s1.place == s.place {
        CopiesStay(s, s1);
      } else {
        Lies(s, Outgoing(g), s.gens[g].chW[0]);
        CopiesMove(s, s1, s.gens[g].chW[0], Victim(t));
      }
    }
    if Evicts(s, t) {
      Lies(s, Victim(t), s.callers[t].victim);
      CopiesMove(s, SignalVictimStep(s, t), s.callers[t].victim, Signalled);
    }
  }

  lemma ReceiveCopies(s: World, t: CallerId)
    requires CopiesOk(s) && Waiting(s, t)
    ensures CopiesOk(ReceiveStep(s, t)) && CopiesOk(AbandonStep(s, t))
  {
    hide CopiesOk;
    if ReceiveStep(s, t) != s { CopiesMove(s, ReceiveStep(s, t), s.callers[t].w, Free); }
    CopiesStay(s, AbandonStep(s, t));
  }

  lemma VisitCopies(s: World, t: CallerId, r: RespId, on: bool)
    requires CopiesOk(s)
    ensures CopiesOk(EnterStep(s)) && CopiesOk(SkipStep(s, r, on))
    ensures Leaves(s, t) ==> CopiesOk(LeaveStep(s, t))
  {
    hide CopiesOk;
    CopiesStay(s, EnterStep(s));
    CopiesStay(s, SkipStep(s, r, on));
    if Leaves(s, t) { CopiesStay(s, LeaveStep(s, t)); }
  }

  lemma AcquireCopies(s: World, t: CallerId, call: Call, reuse: Option<WorkId>)
    requires CopiesOk(s) && PlacesOk(s) && SignalsOk(s) && Arrived(s, t)
    ensures CopiesOk(AcquireStep(s, t, call, reuse)) && Copy(Acquired(s, reuse)) !in s.raised
  {
    hide CopiesOk, PlacesOk, SignalsOk;
    var w := Acquired(s, reuse);
    Lies(s, Free, w);
    OneSignal(s, w);
    OneCopy(s, w);
    CopiesMove(s, AcquireStep(s, t, call, reuse), w, Mine(t));
  }

  // ---- steps of a worker, its writer and its reader

  lemma CalmCopies(s: World, g: GenId, x: Gen)
    requires CopiesOk(s)
    ensures CopiesOk(SetGen(s, g, x))
  {
    hide CopiesOk;
    CopiesStay(s, SetGen(s, g, x));
  }

  lemma FinishCopies(s: World, g: GenId, x: Gen, w: WorkId)
    requires CopiesOk(s) && g in s.gens && w in s.place && s.place[w] != Signalled
    ensures CopiesOk(Finish(s, g, x, w))
  {
    hide CopiesOk;
    CopiesMove(s, Finish(s, g, x, w), w, Signalled);
  }

  lemma WriterCopies(s: World, g: GenId)
    requires CopiesOk(s) && PlacesOk(s) && Is(s, g)
    ensures CopiesOk(WTakeStep(s, g)) && CopiesOk(WPushStep(s, g))
  {
    hide CopiesOk, PlacesOk, Effect;
    var x := s.gens[g];
    if x.worker.writer.WIdle? && x.chW != [] {
      Lies(s, Outgoing(g), x.chW[0]);
      CopiesMove(s, WTakeStep(s, g), x.chW[0], WriterHand(g));
    }
    if x.worker.writer.WWrote? && |x.chR| < s.cap {
      Lies(s, WriterHand(g), x.worker.writer.w);
      CopiesMove(s, WPushStep(s, g), x.worker.writer.w, InFlight(g));
    }
  }

  lemma WriteCopies(s: World, g: GenId, ok: bool)
    requires CopiesOk(s) && PlacesOk(s) && Is(s, g)
    ensures CopiesOk(WWriteStep(s, g, ok)) && CopiesOk(WGiveUpStep(s, g)) && CopiesOk(WExpireStep(s, g))
    ensures CopiesOk(WStopStep(s, g))
  {
    hide CopiesOk, PlacesOk, Effect, Finish;
    var x := s.gens[g];
    CalmCopies(s, g, x.(worker := x.worker.(writer := WDone)));
    if x.worker.writer.WHolds? || x.worker.writer.WWrote? {
      var w := x.worker.writer.w;
      Lies(s, WriterHand(g), w);
      CalmCopies(s, g, x.(written := x.written + [RequestOf(s.req, w)], worker := x.worker.(writer := WWrote(w))));
      FinishCopies(s, g, x.(worker := x.worker.(writer := WDone)), w);
      FinishCopies(s, g, x.(worker := x.worker.(writer := WIdle)), w);
    }
  }

  lemma ReaderCopies(s: World, g: GenId, out: ReadOutcome)
    requires CopiesOk(s) && PlacesOk(s) && RequestsOk(s.req) && Is(s, g)
    ensures CopiesOk(RReadStep(s, g, out))
  {
    hide CopiesOk, PlacesOk, ReadResponse;
    var x, s1 := s.gens[g], RReadStep(s, g, out);
    if s1 != s {
      var w := x.worker.reader.w;
      Lies(s, ReaderHand(g), w);
      CopiesMove(s, s1, w, Signalled);
    }
  }

  lemma TakeCopies(s: World, g: GenId)
    requires CopiesOk(s) && PlacesOk(s) && Is(s, g)
    ensures CopiesOk(RTakeStep(s, g))
  {
    hide CopiesOk, PlacesOk;
    if RTakeStep(s, g) != s {
      Lies(s, InFlight(g), s.gens[g].chR[0]);
      CopiesMove(s, RTakeStep(s, g), s.gens[g].chR[0], ReaderHand(g));
    }
  }

  lemma StopCopies(s: World, g: GenId)
    requires CopiesOk(s) && Is(s, g)
    ensures CopiesOk(RStopStep(s, g)) && CopiesOk(JoinStep(s, g))
  {
    hide CopiesOk;
    CopiesStay(s, RStopStep(s, g));
    CopiesStay(s, JoinStep(s, g));
  }

  lemma RestartCopies(s: World, g: GenId, ok: bool)
    requires CopiesOk(s) && g in s.gens
    ensures CopiesOk(RetireStep(s, g)) && CopiesOk(ConnectStep(s, g, ok))
  {
    hide CopiesOk;
    CopiesStay(s, RetireStep(s, g));
    CopiesStay(s, ConnectStep(s, g, ok));
  }

  lemma DrainCopies(s: World, g: GenId)
    requires CopiesOk(s) && PlacesOk(s) && g in s.gens
    ensures CopiesOk(DrainStep(s, g))
  {
    hide CopiesOk, PlacesOk;
    if s.gens[g].chR == [] {
      CopiesStay(s, DrainStep(s, g));
    } else {
      Lies(s, InFlight(g), s.gens[g].chR[0]);
      CopiesMove(s, DrainStep(s, g), s.gens[g].chR[0], Signalled);
    }
  }

  lemma DiscardCopies(s: World, g: GenId)
    requires CopiesOk(s) && PlacesOk(s) && g in s.gens
    ensures CopiesOk(DiscardStep(s, g))
  {
    hide CopiesOk, PlacesOk;
    if s.gens[g].chW == [] {
      CopiesStay(s, DiscardStep(s, g));
    } else {
      Lies(s, Outgoing(g), s.gens[g].chW[0]);
      CopiesMove(s, DiscardStep(s, g), s.gens[g].chW[0], Free);
    }
  }

  lemma StepCopies(s: World, step: Step)
    requires Inv(s) && CopiesOk(s) && RequestsOk(s.req)
    ensures CopiesOk(Next(s, step))
  {
    hide PlacesOk, SignalsOk, GensOk, UsersOk, WaitersOk, CopiesOk, RequestsOk, Effect,
         EnterStep, AcquireStep, PushStep, EvictStep, GiveUpStep, SignalVictimStep, ReceiveStep, AbandonStep, LeaveStep,
         RetireStep, ConnectStep, JoinStep, DrainStep, DiscardStep, WTakeStep, WExpireStep, WWriteStep, WPushStep,
         WGiveUpStep, WStopStep, RTakeStep, RReadStep, RStopStep, SkipStep;
    match step
    case Enter => VisitCopies(s, 0, 0, false);
    case SetSkipBody(r, on) => VisitCopies(s, 0, r, on);
    case Leave(t) => VisitCopies(s, t, 0, false);
    case AcquireWork(t, call, reuse) => if Arrived(s, t) { AcquireCopies(s, t, call, reuse); }
    case Push(t) => if Holds(s, t) { QueueCopies(s, t); }
    case GiveUpPush(t) => if Holds(s, t) { QueueCopies(s, t); }
    case Evict(t) => EvictCopies(s, t);
    case SignalVictim(t) => EvictCopies(s, t);
    case Receive(t) => if Waiting(s, t) { ReceiveCopies(s, t); }
    case Abandon(t) => if Waiting(s, t) { ReceiveCopies(s, t); }
    case TryRetire(g) => if g in s.gens { RestartCopies(s, g, true); }
    case Connect(g, ok) => if g in s.gens { RestartCopies(s, g, ok); }
    case Drain(g) => if g in s.gens { DrainCopies(s, g); }
    case Discard(g) => if g in s.gens { DiscardCopies(s, g); }
    case Join(g) => if Is(s, g) { StopCopies(s, g); }
    case RStop(g) => if Is(s, g) { StopCopies(s, g); }
    case RTake(g) => if Is(s, g) { TakeCopies(s, g); }
    case RRead(g, out) => if Is(s, g) { ReaderCopies(s, g, out); }
    case WWrite(g, ok) => if Is(s, g) { WriteCopies(s, g, ok); }
    case WGiveUp(g) => if Is(s, g) { WriteCopies(s, g, true); }
    case WStop(g) => if Is(s, g) { WriteCopies(s, g, true); }
    case WExpire(g) => if Is(s, g) { WriteCopies(s, g, true); }
    case _ => if Is(s, step.g) { WriterCopies(s, step.g); }
  }

  // ---- the requests

  /** What happens to the requests on a connection: nothing, one more, or a new connection. */
  ghost predicate Extends(s: World, x: Gen, x1: Gen) {
    || x1.written == x.written
    || x1.written == []
    || (exists w :: x1.written == x.written + [RequestOf(s.req, w)])
  }

  lemma AddRequest(req: map<WorkId, Request>, w: WorkId, r: Request)
    requires RequestsOk(req) && RequestOk(r) && (r.into.Copy? ==> r.into == Copy(w))
    ensures RequestsOk(req[w := r])
  {
  }

  lemma AcquireRequests(s: World, t: CallerId, call: Call, reuse: Option<WorkId>)
    requires RequestsOk(s.req) && Arrived(s, t) && Copy(Acquired(s, reuse)) !in s.raised
    ensures RequestsOk(AcquireStep(s, t, call, reuse).req)
  {
    hide Effect, RequestsOk;
    var w := Acquired(s, reuse);
    AddRequest(s.req, w, RequestFor(Pooled(s, reuse), w, call));
  }

  lemma OneRequest(req: map<WorkId, Request>, w: WorkId)
    requires RequestsOk(req)
    ensures RequestOk(RequestOf(req, w))
  {
  }

  lemma ExtendsOk(s: World, x: Gen, x1: Gen)
    requires RequestsOk(s.req) && WrittenOk(x) && Extends(s, x, x1)
    ensures WrittenOk(x1)
  {
    if x1.written != x.written && x1.written != [] {
      var w :| x1.written == x.written + [RequestOf(s.req, w)];
      OneRequest(s.req, w);
    }
  }

  /** The step has done nothing else to the requests on the connection of g. */
  ghost predicate WrittenBy(s: World, s1: World, g: GenId) {
    && s1.req == s.req
    && (g in s1.gens ==> if g in s.gens then Extends(s, s.gens[g], s1.gens[g]) else s1.gens[g].written == [])
  }

  lemma EnterWrites(s: World, g: GenId)
    requires g == Current(s)
    ensures WrittenBy(s, EnterStep(s), g)
  {
    hide Effect;
  }

  lemma LeaveWrites(s: World, t: CallerId)
    requires Leaves(s, t)
    ensures WrittenBy(s, LeaveStep(s, t), s.callers[t].g)
  {
    hide Effect;
  }

  lemma QueueWrites(s: World, t: CallerId)
    requires Holds(s, t)
    ensures WrittenBy(s, PushStep(s, t), s.callers[t].g) && WrittenBy(s, EvictStep(s, t), s.callers[t].g)
  {
    hide Effect;
  }

  lemma OtherWrites(s: World, t: CallerId, g: GenId)
    requires t in s.callers
    ensures Holds(s, t) ==> WrittenBy(s, GiveUpStep(s, t), g)
    ensures Evicts(s, t) ==> WrittenBy(s, SignalVictimStep(s, t), g)
    ensures Waiting(s, t) ==> WrittenBy(s, ReceiveStep(s, t), g) && WrittenBy(s, AbandonStep(s, t), g)
  {
    hide Effect;
  }

  lemma RestartWrites(s: World, g: GenId, ok: bool)
    requires g in s.gens
    ensures WrittenBy(s, RetireStep(s, g), g) && WrittenBy(s, ConnectStep(s, g, ok), g)
  {
    hide Effect;
  }

  lemma DrainWrites(s: World, g: GenId)
    requires g in s.gens
    ensures WrittenBy(s, DrainStep(s, g), g)
  {
    hide Effect;
  }

  lemma DiscardWrites(s: World, g: GenId)
    requires g in s.gens
    ensures WrittenBy(s, DiscardStep(s, g), g)
  {
    hide Effect;
  }

  lemma TakeWrites(s: World, g: GenId)
    requires Is(s, g)
    ensures WrittenBy(s, WTakeStep(s, g), g) && WrittenBy(s, WPushStep(s, g), g)
  {
    hide Effect;
  }

  lemma WriterWrites(s: World, g: GenId, ok: bool)
    requires Is(s, g)
    ensures WrittenBy(s, WWriteStep(s, g, ok), g)
  {
    hide Effect;
  }

  lemma FailWrites(s: World, g: GenId)
    requires Is(s, g)
    ensures WrittenBy(s, WExpireStep(s, g), g) && WrittenBy(s, WGiveUpStep(s, g), g) && WrittenBy(s, WStopStep(s, g), g)
  {
    hide Effect;
  }

  lemma JoinWrites(s: World, g: GenId)
    requires Is(s, g)
    ensures WrittenBy(s, RTakeStep(s, g), g) && WrittenBy(s, RStopStep(s, g), g) && WrittenBy(s, JoinStep(s, g), g)
  {
    hide Effect;
  }

  lemma ReaderWrites(s: World, g: GenId, out: ReadOutcome)
    requires Is(s, g)
    ensures WrittenBy(s, RReadStep(s, g, out), g)
  {
    hide Effect, ReadResponse;
  }

  lemma AcquireWrites(s: World, t: CallerId, call: Call, reuse: Option<WorkId>)
    requires Arrived(s, t)
    ensures AcquireStep(s, t, call, reuse).gens == s.gens
  {
    hide Effect;
  }

  lemma StepWrites(s: World, step: Step)
    requires !step.AcquireWork?
    ensures WrittenBy(s, Next(s, step), Channels(s, step))
  {
    SkipWrites(s, Channels(s, step));
    hide Effect, WrittenBy,
         EnterStep, AcquireStep, PushStep, EvictStep, GiveUpStep, SignalVictimStep, ReceiveStep, AbandonStep, LeaveStep,
         RetireStep, ConnectStep, JoinStep, DrainStep, DiscardStep, WTakeStep, WExpireStep, WWriteStep, WPushStep,
         WGiveUpStep, WStopStep, RTakeStep, RReadStep, RStopStep, SkipStep;
    match step
    case Enter => EnterWrites(s, Current(s));
    case Leave(t) => if Leaves(s, t) { LeaveWrites(s, t); }
    case Push(t) => if Holds(s, t) { QueueWrites(s, t); }
    case Evict(t) => if Holds(s, t) { QueueWrites(s, t); }
    case SetSkipBody(_, _) =>
    case TryRetire(g) => if g in s.gens { RestartWrites(s, g, true); }
    case Connect(g, ok) => if g in s.gens { RestartWrites(s, g, ok); }
    case Drain(g) => if g in s.gens { DrainWrites(s, g); }
    case Discard(g) => if g in s.gens { DiscardWrites(s, g); }
    case WTake(g) => if Is(s, g) { TakeWrites(s, g); }
    case WPush(g) => if Is(s, g) { TakeWrites(s, g); }
    case WWrite(g, ok) => if Is(s, g) { WriterWrites(s, g, ok); }
    case WExpire(g) => if Is(s, g) { FailWrites(s, g); }
    case WGiveUp(g) => if Is(s, g) { FailWrites(s, g); }
    case WStop(g) => if Is(s, g) { FailWrites(s, g); }
    case RTake(g) => if Is(s, g) { JoinWrites(s, g); }
    case RStop(g) => if Is(s, g) { JoinWrites(s, g); }
    case Join(g) => if Is(s, g) { JoinWrites(s, g); }
    case RRead(g, out) => if Is(s, g) { ReaderWrites(s, g, out); }
    case GiveUpPush(t) => if t in s.callers { OtherWrites(s, t, s.callers[t].g); }
    case SignalVictim(t) => if t in s.callers { OtherWrites(s, t, s.callers[t].g); }
    case Receive(t) => if t in s.callers { OtherWrites(s, t, s.callers[t].g); }
    case Abandon(t) => if t in s.callers { OtherWrites(s, t, s.callers[t].g); }
    case AcquireWork(_, _, _) =>
  }

  lemma SkipWrites(s: World, g: GenId)
    ensures WrittenBy(s, s, g) && forall r, on :: WrittenBy(s, SkipStep(s, r, on), g)
  {
  }

  lemma StepFlags(s: World, step: Step)
    requires Inv(s) && FlagsOk(s)
    ensures FlagsOk(Next(s, step))
  {
    hide Inv, Next, CopiesOk, RequestsOk, WrittenOk, Effect, Extends;
    StepCopies(s, step);
    StepEffect(s, step);
    var s1, h := Next(s, step), Channels(s, step);
    if step.AcquireWork? {
      AcquireFlags(s, step.t, step.call, step.reuse);
    } else {
      StepWrites(s, step);
      forall g | g in s1.gens ensures WrittenOk(s1.gens[g]) {
        if g != h { Elsewhere(s, s1, h, g); }
        else if g in s.gens { ExtendsOk(s, s.gens[g], s1.gens[g]); }
        else { NothingWritten(s1.gens[g]); }
      }
    }
  }

  lemma Elsewhere(s: World, s1: World, h: GenId, g: GenId)
    requires Effect(s, s1, h) && g != h && g in s1.gens
    ensures g in s.gens && s1.gens[g] == s.gens[g]
  {
  }

  lemma NothingWritten(x: Gen)
    requires x.written == []
    ensures WrittenOk(x)
  {
  }

  lemma AcquireFlags(s: World, t: CallerId, call: Call, reuse: Option<WorkId>)
    requires Inv(s) && FlagsOk(s)
    ensures var s1 := Next(s, AcquireWork(t, call, reuse));
      RequestsOk(s1.req) && forall g :: g in s1.gens ==> WrittenOk(s1.gens[g])
  {
    hide CopiesOk, RequestsOk, WrittenOk, AcquireStep, Acquired, PlacesOk, SignalsOk, GensOk, UsersOk, WaitersOk;
    if Arrived(s, t) {
      AcquireCopies(s, t, call, reuse);
      AcquireRequests(s, t, call, reuse);
      AcquireWrites(s, t, call, reuse);
    }
  }

  lemma {:induction false} RunFlags(cap: nat, steps: seq<Step>)
    ensures FlagsOk(Run(Initial(cap), steps))
  {
    hide Inv, Next;
    if steps == [] {
      assert Initial(cap).raised == {};
    } else {
      var front := steps[..|steps| - 1];
      RunFlags(cap, front);
      InitialInv(cap);
      RunKeeps(Initial(cap), front);
      hide FlagsOk;
      StepFlags(Run(Initial(cap), front), steps[|steps| - 1]);
    }
  }
}
