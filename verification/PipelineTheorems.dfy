/** What a user of the pipelined client can rely on, in every run. */
module PipelineTheorems {
  import opened Common
  import opened ResponseWire
  import opened Pipeline
  import opened PipelineInvariants
  import opened PipelineFlags

  /** A state that some run of the client reaches. */
  ghost predicate Reachable(s: World) { exists cap: nat, steps: seq<Step> :: s == Run(Initial(cap), steps) }

  lemma ReachableInv(s: World)
    requires Reachable(s)
    ensures Inv(s)
  {
    hide Inv;
    var cap: nat, steps :| s == Run(Initial(cap), steps);
    InitialInv(cap);
    RunKeeps(Initial(cap), steps);
  }

  /** Every work ever made is in exactly one place, and at one position of a queue it is in. */
  lemma OnePlace(s: World, w: WorkId)
    requires Reachable(s)
    ensures w < s.nextWork <==> exists p :: In(s, p, w)
    ensures forall p, q :: In(s, p, w) && In(s, q, w) ==> p == q
    ensures forall g :: g in s.gens ==> Distinct(s.gens[g].chW) && Distinct(s.gens[g].chR)
  {
    ReachableInv(s);
    hide GensOk, UsersOk, WaitersOk, In, PlacesOk, SignalsOk, FifoOk, Distinct;
    OneSignal(s, w);
    if w in s.place { Lies(s, s.place[w], w); }
    forall p, q | In(s, p, w) && In(s, q, w) ensures p == q { Lies(s, p, w); Lies(s, q, w); }
    if p :| In(s, p, w) { Lies(s, p, w); }
    forall g | g in s.gens ensures Distinct(s.gens[g].chW) && Distinct(s.gens[g].chR) { OneGen(s, g); }
  }

  /** done is sent on at most once from one acquisition of a work to the next, and whatever
      step comes next finds room in its buffer. */
  lemma SendNeverBlocks(s: World, step: Step, w: WorkId)
    requires Reachable(s)
    ensures Count(s.signals, w) <= 1 && Count(s.sent, w) <= 1
    ensures Count(Next(s, step).signals, w) <= 1 && Count(Next(s, step).sent, w) <= 1
    ensures Count(Next(s, step).signals, w) > Count(s.signals, w) ==> Count(s.signals, w) == 0 && Count(s.sent, w) == 0
  {
    ReachableInv(s);
    StepKeeps(s, step);
    hide GensOk, UsersOk, WaitersOk, PlacesOk;
    OneSignal(s, w);
    OneSignal(Next(s, step), w);
    hide Inv, SignalsOk;
    StepEffect(s, step);
    hide Next;
  }

  /** When worker returns, no work of its channels is in a hand or in flight. */
  lemma WorkerLeavesNothing(s: World, g: GenId)
    requires Reachable(s) && g in s.gens && !s.gens[g].worker.Running? && !s.gens[g].worker.Draining?
    ensures forall w :: !In(s, WriterHand(g), w) && !In(s, InFlight(g), w) && !In(s, ReaderHand(g), w)
  {
    ReachableInv(s);
    hide PlacesOk, SignalsOk, GensOk, UsersOk, WaitersOk, FifoOk, Distinct;
    OneGen(s, g);
  }

  /** On one connection the k-th response read is handed to the k-th request written, and the
      one being read to the first request that has none yet. */
  lemma ResponsesInOrder(s: World, g: GenId)
    requires Reachable(s) && g in s.gens
    ensures var x := s.gens[g];
      && |x.wire.taken| == |x.credited| <= |x.written|
      && (forall k :: 0 <= k < |x.credited| ==> x.credited[k] == x.written[k])
      && (forall w :: w in ReaderHas(x) ==>
            |x.credited| < |x.written| && RequestOf(s.req, w) == x.written[|x.credited|])
  {
    ReachableInv(s);
    hide PlacesOk, SignalsOk, UsersOk, WaitersOk, GensOk, Distinct, WireOk;
    OneGen(s, g);
    var x := s.gens[g];
    if x.worker.Running? && x.worker.reader.RHolds? { assert Owed(x)[0] == x.worker.reader.w; }
  }

  /** These responses are the server's answers to these requests, and so will the next one be,
      exactly as long as no request other than HEAD that began with SkipBody set was answered
      with a body. */
  lemma ResponsesInStep(s: World, g: GenId)
    requires Reachable(s) && g in s.gens
    ensures var x := s.gens[g];
      && |x.wire.taken| == |x.credited| <= |x.written|
      && (InStep(x.wire) <==>
            forall k :: 0 <= k < |x.credited| ==> !Trap(x.written[k], x.wire.taken[k].answer))
  {
    ReachableInv(s);
    hide PlacesOk, SignalsOk, UsersOk, WaitersOk, GensOk, Distinct;
    OneGen(s, g);
    InStepExactly(s.gens[g].wire, s.gens[g].written);
    hide WireOk, InStep;
  }

  /** What a caller can see to: if SkipBody is down in every Response given to Do, other than for
      HEAD, the connection stays in step whatever the server answers. */
  lemma StaysInStep(s: World, g: GenId)
    requires Reachable(s) && g in s.gens
    requires forall k :: 0 <= k < |s.gens[g].written| ==> !s.gens[g].written[k].skip || s.gens[g].written[k].head
    ensures InStep(s.gens[g].wire)
  {
    hide InStep, Reachable;
    ResponsesInStep(s, g);
  }

  /** Only a Response of the caller, given to Do, brings SkipBody into a request: DoDeadline and a
      Do without a Response read into one that was reset. */
  lemma SkipIsTheCallers(s: World, g: GenId)
    requires Reachable(s) && g in s.gens
    ensures forall k :: 0 <= k < |s.gens[g].written| && s.gens[g].written[k].skip ==> s.gens[g].written[k].into.Callers?
  {
    var cap: nat, steps :| s == Run(Initial(cap), steps);
    RunFlags(cap, steps);
    hide Run;
  }

  /** A caller that waits has its work under way in channels that are current, or its signal
      is ready; nobody else waits on that work. */
  lemma WaiterIsServed(s: World, t: CallerId)
    requires Reachable(s) && Waiting(s, t)
    ensures Underway(s, s.callers[t].w, s.callers[t].g)
    ensures s.chs == Some(s.callers[t].g) && s.callers[t].g in s.gens && !Retired(s.gens[s.callers[t].g].worker)
    ensures forall u :: Waits(s, u, s.callers[t].w) ==> u == t
  {
    ReachableInv(s);
    hide PlacesOk, SignalsOk, UsersOk, WaitersOk, GensOk;
    InUse(s, t);
    OneWaiter(s, t, s.callers[t].w);
    forall u | Waits(s, u, s.callers[t].w) ensures u == t { OneWaiter(s, u, s.callers[t].w); }
  }

  /** Retirement discards only works whose callers have left. */
  lemma DiscardsAbandoned(s: World, g: GenId)
    requires Reachable(s) && g in s.gens && Retired(s.gens[g].worker)
    ensures forall t :: t in s.callers ==> s.callers[t].g != g
    ensures forall w, t :: w in s.gens[g].chW ==> !Waits(s, t, w)
  {
    ReachableInv(s);
    hide PlacesOk, SignalsOk, UsersOk, WaitersOk, GensOk, FifoOk, Distinct;
    OneGen(s, g);
    forall t | t in s.callers ensures s.callers[t].g != g { InUse(s, t); }
    forall w, t | w in s.gens[g].chW ensures !Waits(s, t, w) {
      Lies(s, Outgoing(g), w);
      NobodyWaits(s, g, w);
    }
  }

  predicate Suffix(a: seq<WorkId>, b: seq<WorkId>) { |a| <= |b| && a == b[|b| - |a|..] }

  /** Retired channels stay retired and only lose works. */
  ghost predicate StaysRetired(s: World, s1: World, g: GenId) {
    g in s.gens && g in s1.gens && Retired(s1.gens[g].worker) && Suffix(s1.gens[g].chW, s.gens[g].chW)
  }

  lemma RetiredStep(s: World, step: Step, g: GenId)
    requires Inv(s) && g in s.gens && Retired(s.gens[g].worker)
    ensures StaysRetired(s, Next(s, step), g)
  {
    hide Inv, Effect, Next, Channels, StaysRetired, DiscardStep;
    StepEffect(s, step);
    var s1 := Next(s, step);
    if Channels(s, step) != g {
      EffectElsewhere(s, s1, Channels(s, step), g);
      SameStays(s, s1, g);
    } else {
      RetiredTarget(s, step, g);
      if s1.gens == s.gens { SameStays(s, s1, g); } else { DiscardStays(s, g); }
    }
  }

  lemma SameStays(s: World, s1: World, g: GenId)
    requires g in s.gens && Retired(s.gens[g].worker) && g in s1.gens && s1.gens[g] == s.gens[g]
    ensures StaysRetired(s, s1, g)
  {
  }

  lemma DiscardStays(s: World, g: GenId)
    requires g in s.gens && Retired(s.gens[g].worker)
    ensures StaysRetired(s, Next(s, Discard(g)), g)
  {
    hide Effect;
  }

  lemma EffectElsewhere(s: World, r: World, h: GenId, g: GenId)
    requires Effect(s, r, h) && g != h && g in s.gens
    ensures g in r.gens && r.gens[g] == s.gens[g]
  {
  }

  /** The only step that works on retired channels is the one that empties them. */
  lemma RetiredTarget(s: World, step: Step, g: GenId)
    requires Inv(s) && g in s.gens && Retired(s.gens[g].worker) && Channels(s, step) == g
    ensures Next(s, step).gens == s.gens || step == Discard(g)
  {
    hide PlacesOk, SignalsOk, UsersOk, WaitersOk, GensOk, FifoOk, Distinct,
         EnterStep, AcquireStep, PushStep, EvictStep, GiveUpStep, SignalVictimStep, ReceiveStep, AbandonStep, LeaveStep,
         RetireStep, ConnectStep, JoinStep, DrainStep, DiscardStep, WTakeStep, WExpireStep, WWriteStep, WPushStep,
         WGiveUpStep, WStopStep, RTakeStep, RReadStep, RStopStep, Effect;
    OneGen(s, g);
    CurrentOk(s);
    RetireIdle(s, g);
    forall t | t in s.callers ensures s.callers[t].g != g { InUse(s, t); }
  }

  /** No caller can push to retired channels later, in any continuation. */
  lemma {:induction false} NoLatePush(s: World, steps: seq<Step>, g: GenId)
    requires Reachable(s) && g in s.gens && Retired(s.gens[g].worker)
    ensures StaysRetired(s, Run(s, steps), g)
  {
    hide Inv, Next;
    if steps != [] {
      var front := steps[..|steps| - 1];
      NoLatePush(s, front, g);
      ReachableInv(s);
      RunKeeps(s, front);
      RetiredStep(Run(s, front), steps[|steps| - 1], g);
    }
  }
}
