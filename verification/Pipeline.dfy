/** The pipelined client: callers, one worker with its writer and reader for each pair of
    channels, overflow eviction, abandonment on timeout, restart and retirement
    (fasthttp/client.go:2865-3041, 3118-3436). One step is one channel operation, one
    chLock section, or one request written or response read. */
module Pipeline {
  import opened Common
  import opened ResponseWire

  type CallerId = nat
  type GenId = nat

  /** Writer between two operations. `Wrote` holds a request that is on the wire. */
  datatype Writer = WIdle | WHolds(w: WorkId) | WWrote(w: WorkId) | WDone

  datatype Reader = RIdle | RHolds(w: WorkId) | RDone

  datatype Worker =
    | Top                                          // about to try to retire, then to connect
    | Connecting
    | Running(writer: Writer, reader: Reader, stopW: bool, stopR: bool)
    | Draining                                     // reader and writer have stopped
    | Bottom                                       // about to try to retire, then to restart
    | Discarding                                   // retired, emptying chW
    | Gone

  /** One pipelineConnChannels with its worker. `written` are the requests put on the current
      connection and `credited` those that were given a response from it, in order; `wire` is
      what the server sends back. */
  datatype Gen = Gen(chW: seq<WorkId>, chR: seq<WorkId>, users: nat, worker: Worker,
                     written: seq<Request>, credited: seq<Request>, wire: Wire)

  datatype Caller =
    | Inside(g: GenId)                                            // holds the channels only, as PendingRequests does
    | Holding(g: GenId, w: WorkId, timed: bool, evicted: bool)    // about to send w on chW
    | Evicting(g: GenId, w: WorkId, victim: WorkId)               // took the oldest work out
    | Awaiting(g: GenId, w: WorkId, timed: bool)                  // waits for done
    | Leaving(g: GenId)

  /** Where a work is. */
  datatype Place =
    | Free | Mine(t: CallerId) | Victim(t: CallerId)
    | Outgoing(g: GenId) | WriterHand(g: GenId) | InFlight(g: GenId) | ReaderHand(g: GenId)
    | Signalled

  /** `signals` is the number of values buffered in done, which has room for one; `sent` counts
      the sends since the work was acquired and `req` is the request it was acquired for.
      `raised` are the Responses whose SkipBody is set. `sent`, `place` and `waiter` are
      bookkeeping that the steps never consult. */
  datatype World = World(
    cap: nat,
    chs: Option<GenId>,
    gens: map<GenId, Gen>,
    callers: map<CallerId, Caller>,
    workPool: set<WorkId>,
    signals: map<WorkId, nat>,
    sent: map<WorkId, nat>,
    req: map<WorkId, Request>,
    raised: set<Target>,
    place: map<WorkId, Place>,
    waiter: map<WorkId, CallerId>,
    nextGen: GenId, nextCaller: CallerId, nextWork: WorkId, nextRequest: nat)

  /** Do (not timed) or DoDeadline, of a HEAD request or another, with the caller's Response. */
  datatype Call = Call(timed: bool, head: bool, resp: Option<RespId>)

  /** SetReadDeadline fails, reading fails, or a response is read. */
  datatype ReadOutcome = DeadlineFails | ReadFails | Answered(a: Answer, junk: Junk)

  datatype Step =
    // callers
    | Enter
    | AcquireWork(t: CallerId, call: Call, reuse: Option<WorkId>)
    | Push(t: CallerId)
    | Evict(t: CallerId)
    | SignalVictim(t: CallerId)
    | GiveUpPush(t: CallerId)
    | Receive(t: CallerId)
    | Abandon(t: CallerId)
    | Leave(t: CallerId)
    | SetSkipBody(r: RespId, on: bool)             // also Response.Reset, which lowers it
    // workers
    | TryRetire(g: GenId)
    | Connect(g: GenId, ok: bool)
    | Join(g: GenId)
    | Drain(g: GenId)
    | Discard(g: GenId)
    // writers
    | WTake(g: GenId)
    | WExpire(g: GenId)
    | WWrite(g: GenId, ok: bool)
    | WPush(g: GenId)
    | WGiveUp(g: GenId)
    | WStop(g: GenId)
    // readers
    | RTake(g: GenId)
    | RRead(g: GenId, out: ReadOutcome)
    | RStop(g: GenId)

  // ---- small updates

  function SetGen(s: World, g: GenId, x: Gen): World { s.(gens := s.gens[g := x]) }

  function SetCaller(s: World, t: CallerId, x: Caller): World { s.(callers := s.callers[t := x]) }

  function At(s: World, w: WorkId, p: Place): World { s.(place := s.place[w := p]) }

  function Count(m: map<WorkId, nat>, w: WorkId): nat { if w in m then m[w] else 0 }

  function RequestOf(req: map<WorkId, Request>, w: WorkId): Request {
    if w in req then req[w] else Request(0, false, false, Copy(w), None)
  }

  /** w.done <- struct{}{} */
  function Signal(s: World, w: WorkId): World {
    At(s.(signals := s.signals[w := Count(s.signals, w) + 1], sent := s.sent[w := Count(s.sent, w) + 1]), w, Signalled)
  }

  /** releasePipelineWork, which resets the work's own Response. */
  function ReleaseWork(s: World, w: WorkId): World {
    At(s.(workPool := s.workPool + {w}, raised := s.raised - {Copy(w)}), w, Free)
  }

  predicate Is(s: World, g: GenId) { g in s.gens && s.gens[g].worker.Running? }

  // ---- steps

  /** What a step for the channels g may do: change these channels only, and put a value into
      done only by a send. */
  ghost predicate Effect(s: World, r: World, g: GenId) {
    && (r.gens == s.gens || (g in r.gens && r.gens == s.gens[g := r.gens[g]]))
    && (forall w :: Count(r.signals, w) > Count(s.signals, w) ==> Count(r.sent, w) == Count(s.sent, w) + 1)
  }

  /** The channels g become x and w, which leaves them, is signalled. */
  function Finish(s: World, g: GenId, x: Gen, w: WorkId): (r: World)
    requires g in s.gens
    ensures Effect(s, r, g)
  {
    Signal(SetGen(s, g, x), w)
  }

  function Next(s: World, step: Step): World {
    match step
    case Enter => EnterStep(s)
    case AcquireWork(t, call, reuse) =>
      if t in s.callers && s.callers[t].Inside? then AcquireStep(s, t, call, reuse) else s
    case Push(t) => if t in s.callers && s.callers[t].Holding? then PushStep(s, t) else s
    case Evict(t) => if t in s.callers && s.callers[t].Holding? then EvictStep(s, t) else s
    case SignalVictim(t) =>
      if t in s.callers && s.callers[t].Evicting? then SignalVictimStep(s, t) else s
    case GiveUpPush(t) => if t in s.callers && s.callers[t].Holding? then GiveUpStep(s, t) else s
    case Receive(t) => if t in s.callers && s.callers[t].Awaiting? then ReceiveStep(s, t) else s
    case Abandon(t) =>
      if t in s.callers && s.callers[t].Awaiting? && s.callers[t].timed then AbandonStep(s, t) else s
    case Leave(t) =>
      if t in s.callers && (s.callers[t].Leaving? || s.callers[t].Inside?) then LeaveStep(s, t) else s
    case SetSkipBody(r, on) => SkipStep(s, r, on)
    case TryRetire(g) => if g in s.gens then RetireStep(s, g) else s
    case Connect(g, ok) => if g in s.gens && s.gens[g].worker.Connecting? then ConnectStep(s, g, ok) else s
    case Join(g) => if Is(s, g) then JoinStep(s, g) else s
    case Drain(g) => if g in s.gens && s.gens[g].worker.Draining? then DrainStep(s, g) else s
    case Discard(g) => if g in s.gens && s.gens[g].worker.Discarding? then DiscardStep(s, g) else s
    case WTake(g) => if Is(s, g) then WTakeStep(s, g) else s
    case WExpire(g) => if Is(s, g) then WExpireStep(s, g) else s
    case WWrite(g, ok) => if Is(s, g) then WWriteStep(s, g, ok) else s
    case WPush(g) => if Is(s, g) then WPushStep(s, g) else s
    case WGiveUp(g) => if Is(s, g) then WGiveUpStep(s, g) else s
    case WStop(g) => if Is(s, g) then WStopStep(s, g) else s
    case RTake(g) => if Is(s, g) then RTakeStep(s, g) else s
    case RRead(g, out) => if Is(s, g) then RReadStep(s, g, out) else s
    case RStop(g) => if Is(s, g) then RStopStep(s, g) else s
  }

  /** acquirePipelineConnChannels: the first user of new channels starts their worker. */
  function EnterStep(s: World): (r: World)
    ensures Effect(s, r, Current(s))
  {
    var g := Current(s);
    s.(gens := s.gens[g := if g in s.gens then s.gens[g].(users := s.gens[g].users + 1) else NewGen()],
       chs := Some(g), nextGen := if s.chs.None? then s.nextGen + 1 else s.nextGen,
       callers := s.callers[s.nextCaller := Inside(g)], nextCaller := s.nextCaller + 1)
  }

  function NewGen(): Gen { Gen([], [], 1, Top, [], [], FreshWire) }

  function Current(s: World): GenId { if s.chs.Some? then s.chs.value else s.nextGen }

  /** acquirePipelineWork: a recycled work, or a new one. */
  function AcquireStep(s: World, t: CallerId, call: Call, reuse: Option<WorkId>): (r: World)
    requires t in s.callers && s.callers[t].Inside?
    ensures Effect(s, r, s.callers[t].g)
  {
    Assign(Pooled(s, reuse), t, Acquired(s, reuse), call)
  }

  function Acquired(s: World, reuse: Option<WorkId>): WorkId {
    if reuse.Some? && reuse.value in s.workPool then reuse.value else s.nextWork
  }

  function Pooled(s: World, reuse: Option<WorkId>): World {
    if reuse.Some? && reuse.value in s.workPool then s.(workPool := s.workPool - {reuse.value})
    else s.(nextWork := s.nextWork + 1, signals := s.signals[s.nextWork := 0])
  }

  /** Do reads into the caller's Response, if there is one; DoDeadline and a Do without one read
      into the work's own. */
  function RequestFor(s: World, w: WorkId, call: Call): Request {
    var into := if call.timed || call.resp.None? then Copy(w) else Callers(call.resp.value);
    Request(s.nextRequest, call.head, into in s.raised, into, if call.timed then call.resp else None)
  }

  function Assign(s: World, t: CallerId, w: WorkId, call: Call): World
    requires t in s.callers
  {
    SetCaller(At(s.(sent := s.sent[w := 0], req := s.req[w := RequestFor(s, w, call)],
                    nextRequest := s.nextRequest + 1), w, Mine(t)),
              t, Holding(s.callers[t].g, w, call.timed, false))
  }

  /** The caller sets SkipBody, or clears it as Reset does. */
  function SkipStep(s: World, r: RespId, on: bool): (s1: World)
    ensures Effect(s, s1, 0)
  {
    s.(raised := if on then s.raised + {Callers(r)} else s.raised - {Callers(r)})
  }

  function PushStep(s: World, t: CallerId): (r: World)
    requires t in s.callers && s.callers[t].Holding?
    ensures Effect(s, r, s.callers[t].g)
  {
    var Holding(g, w, timed, _) := s.callers[t];
    if g !in s.gens || |s.gens[g].chW| >= s.cap then s
    else
      At(SetCaller(SetGen(s, g, s.gens[g].(chW := s.gens[g].chW + [w])), t, Awaiting(g, w, timed)), w, Outgoing(g))
      .(waiter := s.waiter[w := t])
  }

  /** Do, outgoing queue full: take the oldest work out, if one is still there. */
  function EvictStep(s: World, t: CallerId): (r: World)
    requires t in s.callers && s.callers[t].Holding?
    ensures Effect(s, r, s.callers[t].g)
  {
    var Holding(g, w, timed, evicted) := s.callers[t];
    if timed || evicted || g !in s.gens then s
    else if s.gens[g].chW == [] then SetCaller(s, t, Holding(g, w, false, true))
    else
      var x := s.gens[g];
      SetCaller(At(SetGen(s, g, x.(chW := x.chW[1..])), x.chW[0], Victim(t)), t, Evicting(g, w, x.chW[0]))
  }

  function SignalVictimStep(s: World, t: CallerId): (r: World)
    requires t in s.callers && s.callers[t].Evicting?
    ensures Effect(s, r, s.callers[t].g)
  {
    SetCaller(Signal(s, s.callers[t].victim), t, Holding(s.callers[t].g, s.callers[t].w, false, true))
  }

  /** The work was never enqueued: DoDeadline timed out, or Do found the queue full again. */
  function GiveUpStep(s: World, t: CallerId): (r: World)
    requires t in s.callers && s.callers[t].Holding?
    ensures Effect(s, r, s.callers[t].g)
  {
    var Holding(g, w, timed, evicted) := s.callers[t];
    if timed || evicted then SetCaller(ReleaseWork(s, w), t, Leaving(g)) else s
  }

  function ReceiveStep(s: World, t: CallerId): (r: World)
    requires t in s.callers && s.callers[t].Awaiting?
    ensures Effect(s, r, s.callers[t].g)
  {
    var Awaiting(g, w, _) := s.callers[t];
    if w !in s.signals || s.signals[w] == 0 then s
    else
      SetCaller(ReleaseWork(s.(signals := s.signals[w := s.signals[w] - 1], waiter := s.waiter - {w},
                               raised := HandedOver(s, w)), w), t, Leaving(g))
  }

  /** DoDeadline copies what it received, SkipBody included, into the caller's Response. */
  function HandedOver(s: World, w: WorkId): set<Target> {
    var to := RequestOf(s.req, w).copyTo;
    if to.None? then s.raised
    else if Copy(w) in s.raised then s.raised + {Callers(to.value)}
    else s.raised - {Callers(to.value)}
  }

  /** DoDeadline times out and leaves its work behind. */
  function AbandonStep(s: World, t: CallerId): (r: World)
    requires t in s.callers && s.callers[t].Awaiting?
    ensures Effect(s, r, s.callers[t].g)
  {
    SetCaller(s.(waiter := s.waiter - {s.callers[t].w}), t, Leaving(s.callers[t].g))
  }

  function LeaveStep(s: World, t: CallerId): (r: World)
    requires t in s.callers && (s.callers[t].Leaving? || s.callers[t].Inside?)
    ensures Effect(s, r, s.callers[t].g)
  {
    var g := s.callers[t].g;
    var s1 := s.(callers := s.callers - {t});
    if g in s.gens && s.gens[g].users > 0 then SetGen(s1, g, s.gens[g].(users := s.gens[g].users - 1)) else s1
  }

  /** tryRetirePipelineConnChannels; otherwise the worker goes on. */
  function RetireStep(s: World, g: GenId): (r: World)
    requires g in s.gens
    ensures Effect(s, r, g)
  {
    var x := s.gens[g];
    if !x.worker.Top? && !x.worker.Bottom? then s
    else if s.chs == Some(g) && x.users == 0 && |x.chR| == 0 then
      SetGen(s.(chs := None), g, x.(worker := Discarding))
    else SetGen(s, g, x.(worker := if x.worker.Top? then Connecting else Top))
  }

  function ConnectStep(s: World, g: GenId, ok: bool): (r: World)
    requires g in s.gens
    ensures Effect(s, r, g)
  {
    var x := s.gens[g];
    SetGen(s, g,
      if ok then x.(worker := Running(WIdle, RIdle, false, false), written := [], credited := [], wire := FreshWire)
                 else x.(worker := Bottom))
  }

  /** The worker sees its writer or its reader stop, stops the other, and waits for both. */
  function JoinStep(s: World, g: GenId): (r: World)
    requires Is(s, g)
    ensures Effect(s, r, g)
  {
    var x := s.gens[g];
    var (w, r) := (x.worker.writer, x.worker.reader);
    if w.WDone? && r.RDone? then SetGen(s, g, x.(worker := Draining))
    else SetGen(s, g, x.(worker := x.worker.(stopW := x.worker.stopW || r.RDone?, stopR := x.worker.stopR || w.WDone?)))
  }

  function DrainStep(s: World, g: GenId): (r: World)
    requires g in s.gens
    ensures Effect(s, r, g)
  {
    var x := s.gens[g];
    if x.chR == [] then SetGen(s, g, x.(worker := Bottom))
    else Finish(s, g, x.(chR := x.chR[1..]), x.chR[0])
  }

  function DiscardStep(s: World, g: GenId): (r: World)
    requires g in s.gens
    ensures Effect(s, r, g)
  {
    var x := s.gens[g];
    if x.chW == [] then SetGen(s, g, x.(worker := Gone))
    else ReleaseWork(SetGen(s, g, x.(chW := x.chW[1..])), x.chW[0])
  }

  function SetWriter(s: World, g: GenId, w: Writer): World
    requires Is(s, g)
  {
    SetGen(s, g, s.gens[g].(worker := s.gens[g].worker.(writer := w)))
  }

  function SetReader(s: World, g: GenId, r: Reader): World
    requires Is(s, g)
  {
    SetGen(s, g, s.gens[g].(worker := s.gens[g].worker.(reader := r)))
  }

  function WTakeStep(s: World, g: GenId): (r: World)
    requires Is(s, g)
    ensures Effect(s, r, g)
  {
    var x := s.gens[g];
    if !x.worker.writer.WIdle? || x.chW == [] then s
    else At(SetWriter(SetGen(s, g, x.(chW := x.chW[1..])), g, WHolds(x.chW[0])), x.chW[0], WriterHand(g))
  }

  /** The deadline of the work has passed before it was written. */
  function WExpireStep(s: World, g: GenId): (r: World)
    requires Is(s, g)
    ensures Effect(s, r, g)
  {
    var x := s.gens[g];
    if !x.worker.writer.WHolds? then s else Finish(s, g, x.(worker := x.worker.(writer := WIdle)), x.worker.writer.w)
  }

  function WWriteStep(s: World, g: GenId, ok: bool): (r: World)
    requires Is(s, g)
    ensures Effect(s, r, g)
  {
    var x := s.gens[g];
    if !x.worker.writer.WHolds? then s
    else
      var w := x.worker.writer.w;
      if ok then
        SetGen(s, g, x.(written := x.written + [RequestOf(s.req, w)], worker := x.worker.(writer := WWrote(w))))
      else Finish(s, g, x.(worker := x.worker.(writer := WDone)), w)
  }

  function WPushStep(s: World, g: GenId): (r: World)
    requires Is(s, g)
    ensures Effect(s, r, g)
  {
    var x := s.gens[g];
    if !x.worker.writer.WWrote? || |x.chR| >= s.cap then s
    else
      var w := x.worker.writer.w;
      At(SetWriter(SetGen(s, g, x.(chR := x.chR + [w])), g, WIdle), w, InFlight(g))
  }

  /** While the in-flight queue had no room, the worker stopped the writer or a flush failed. */
  function WGiveUpStep(s: World, g: GenId): (r: World)
    requires Is(s, g)
    ensures Effect(s, r, g)
  {
    var x := s.gens[g];
    if !x.worker.writer.WWrote? then s else Finish(s, g, x.(worker := x.worker.(writer := WDone)), x.worker.writer.w)
  }

  /** Told to stop, a failed flush, or idle for too long with both queues seen empty. */
  function WStopStep(s: World, g: GenId): (r: World)
    requires Is(s, g)
    ensures Effect(s, r, g)
  {
    if s.gens[g].worker.writer.WIdle? then SetWriter(s, g, WDone) else s
  }

  function RTakeStep(s: World, g: GenId): (r: World)
    requires Is(s, g)
    ensures Effect(s, r, g)
  {
    var x := s.gens[g];
    if !x.worker.reader.RIdle? || x.chR == [] then s
    else At(SetReader(SetGen(s, g, x.(chR := x.chR[1..])), g, RHolds(x.chR[0])), x.chR[0], ReaderHand(g))
  }

  /** The reader raises SkipBody for HEAD and reads a response. */
  function RReadStep(s: World, g: GenId, out: ReadOutcome): (r: World)
    requires Is(s, g)
    ensures Effect(s, r, g)
  {
    var x := s.gens[g];
    if !x.worker.reader.RHolds? then s
    else
      var w := x.worker.reader.w;
      var req := RequestOf(s.req, w);
      match out
      case DeadlineFails => Finish(s, g, x.(worker := x.worker.(reader := RDone)), w)
      case ReadFails => Finish(Raise(s, req), g, x.(worker := x.worker.(reader := RDone)), w)
      case Answered(a, junk) =>
        var wire := ReadResponse(x.wire, x.written, req, a, junk);
        if wire.None? then s
        else Finish(Raise(s, req), g, Credit(x, req, wire.value), w)
  }

  function Raise(s: World, req: Request): World { if req.head then s.(raised := s.raised + {req.into}) else s }

  function Credit(x: Gen, req: Request, wire: Wire): Gen
    requires x.worker.Running?
  {
    x.(credited := x.credited + [req], wire := wire, worker := x.worker.(reader := RIdle))
  }

  function RStopStep(s: World, g: GenId): (r: World)
    requires Is(s, g)
    ensures Effect(s, r, g)
  {
    if s.gens[g].worker.reader.RIdle? && s.gens[g].worker.stopR then SetReader(s, g, RDone) else s
  }

  function Run(s: World, steps: seq<Step>): World {
    if steps == [] then s else Next(Run(s, steps[..|steps| - 1]), steps[|steps| - 1])
  }

  /** MaxPendingRequests works fit into each channel. */
  function Initial(cap: nat): World {
    World(cap, None, map[], map[], {}, map[], map[], map[], {}, map[], map[], 0, 0, 0, 0)
  }
}
