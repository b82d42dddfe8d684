/** What every run of the pipelined client keeps. */
module PipelineInvariants {
  import opened Common
  import opened ResponseWire
  import opened Pipeline

  // ---- the works inside one pair of channels

  function WriterHas(x: Gen): seq<WorkId> {
    if x.worker.Running? && (x.worker.writer.WHolds? || x.worker.writer.WWrote?) then [x.worker.writer.w] else []
  }

  function ReaderHas(x: Gen): seq<WorkId> {
    if x.worker.Running? && x.worker.reader.RHolds? then [x.worker.reader.w] else []
  }

  /** Where works really are. */
  predicate In(s: World, p: Place, w: WorkId) {
    match p
    case Free => w in s.workPool
    case Mine(t) => t in s.callers && (s.callers[t].Holding? || s.callers[t].Evicting?) && s.callers[t].w == w
    case Victim(t) => t in s.callers && s.callers[t].Evicting? && s.callers[t].victim == w
    case Outgoing(g) => g in s.gens && w in s.gens[g].chW
    case WriterHand(g) => g in s.gens && w in WriterHas(s.gens[g])
    case InFlight(g) => g in s.gens && w in s.gens[g].chR
    case ReaderHand(g) => g in s.gens && w in ReaderHas(s.gens[g])
    case Signalled => w in s.signals && s.signals[w] > 0
  }

  /** Every work is in exactly one place. */
  ghost predicate PlacesOk(s: World) {
    forall p, w :: In(s, p, w) <==> w in s.place && s.place[w] == p
  }

  /** A work gets at most one signal from one acquisition to the next, and none while it is on
      its way; done never holds a second value. */
  predicate SignalOk(s: World, w: WorkId) {
    && (w in s.place <==> w < s.nextWork)
    && Count(s.signals, w) <= 1 && Count(s.sent, w) <= 1
    && (w in s.place && s.place[w] != Free && s.place[w] != Signalled ==> Count(s.sent, w) == 0)
  }

  ghost predicate SignalsOk(s: World) { forall w :: SignalOk(s, w) }

  predicate Retired(x: Worker) { x.Discarding? || x.Gone? }

  /** Channels are current until they retire, retired ones have no users, and the in-flight
      queue is empty unless a connection is up or being torn down. */
  ghost predicate GenOk(s: World, g: GenId, x: Gen) {
    && g < s.nextGen
    && (Retired(x.worker) <==> s.chs != Some(g))
    && (Retired(x.worker) ==> x.users == 0)
    && (!x.worker.Running? && !x.worker.Draining? ==> x.chR == [])
    && (x.worker.Gone? ==> x.chW == [])
    && Distinct(x.chW) && Distinct(x.chR) && |x.chW| <= s.cap && |x.chR| <= s.cap
  }

  /** What the server still owes on the connection, oldest first. */
  function Owed(x: Gen): seq<WorkId>
    requires x.worker.Running?
  {
    ReaderHas(x) + x.chR + (if x.worker.writer.WWrote? then [x.worker.writer.w] else [])
  }

  /** Responses are credited in the order in which requests were written. */
  ghost predicate FifoOk(req: map<WorkId, Request>, x: Gen) {
    && x.credited <= x.written
    && |x.wire.taken| == |x.credited| && WireOk(x.wire, x.written)
    && (x.worker.Running? && !x.worker.reader.RDone? ==> OwedOk(req, x))
  }

  ghost predicate OwedOk(req: map<WorkId, Request>, x: Gen)
    requires x.worker.Running?
  {
    && |x.credited| + |Owed(x)| <= |x.written|
    && (!x.worker.writer.WDone? ==> |x.credited| + |Owed(x)| == |x.written|)
    && (forall k :: 0 <= k < |Owed(x)| ==> RequestOf(req, Owed(x)[k]) == x.written[|x.credited| + k])
  }

  ghost predicate GensOk(s: World) {
    && (s.chs.Some? ==> s.chs.value in s.gens)
    && (forall g :: g in s.gens ==> GenOk(s, g, s.gens[g]) && FifoOk(s.req, s.gens[g]))
  }

  ghost function UsersOf(s: World, g: GenId): set<CallerId> {
    set t | t in s.callers && s.callers[t].g == g
  }

  ghost predicate UsersOk(s: World) {
    && (forall t :: t in s.callers ==> t < s.nextCaller && s.callers[t].g in s.gens)
    && (forall g :: g in s.gens ==> s.gens[g].users == |UsersOf(s, g)|)
  }

  /** The channels a work that is on its way belongs to. */
  predicate Underway(s: World, w: WorkId, g: GenId) {
    w in s.place &&
    match s.place[w]
    case Outgoing(h) => h == g
    case WriterHand(h) => h == g
    case InFlight(h) => h == g
    case ReaderHand(h) => h == g
    case Victim(t) => t in s.callers && s.callers[t].g == g
    case Signalled => true
    case _ => false
  }

  predicate Waits(s: World, t: CallerId, w: WorkId) { t in s.callers && s.callers[t].Awaiting? && s.callers[t].w == w }

  predicate WaiterOk(s: World, t: CallerId, w: WorkId) {
    && (Waits(s, t, w) ==> w in s.waiter && s.waiter[w] == t && Underway(s, w, s.callers[t].g))
    && (w in s.waiter && s.waiter[w] == t ==> Waits(s, t, w))
  }

  /** A caller that waits is the only one to wait on its work, which is under way in the
      caller's channels. */
  ghost predicate WaitersOk(s: World) { forall t, w :: WaiterOk(s, t, w) }

  ghost predicate Inv(s: World) {
    PlacesOk(s) && SignalsOk(s) && GensOk(s) && UsersOk(s) && WaitersOk(s)
  }

  // ---- single instances, so that proofs need not see the quantifiers

  lemma Lies(s: World, p: Place, w: WorkId)
    requires PlacesOk(s)
    ensures In(s, p, w) <==> w in s.place && s.place[w] == p
  {
  }

  lemma OneSignal(s: World, w: WorkId)
    requires SignalsOk(s)
    ensures SignalOk(s, w)
  {
  }

  lemma OneGen(s: World, g: GenId)
    requires GensOk(s) && g in s.gens
    ensures GenOk(s, g, s.gens[g]) && FifoOk(s.req, s.gens[g])
  {
  }

  lemma OneWaiter(s: World, t: CallerId, w: WorkId)
    requires WaitersOk(s)
    ensures WaiterOk(s, t, w)
  {
  }

  lemma PlacesFrom(s: World)
    requires forall p, w :: In(s, p, w) <==> w in s.place && s.place[w] == p
    ensures PlacesOk(s)
  {
  }

  lemma WaitersFrom(s: World)
    requires forall t, w :: WaiterOk(s, t, w)
    ensures WaitersOk(s)
  {
  }

  lemma SignalsFrom(s: World)
    requires forall w :: SignalOk(s, w)
    ensures SignalsOk(s)
  {
  }

  lemma GensFrom(s: World)
    requires s.chs.Some? ==> s.chs.value in s.gens
    requires forall g :: g in s.gens ==> GenOk(s, g, s.gens[g]) && FifoOk(s.req, s.gens[g])
    ensures GensOk(s)
  {
  }

  // ---- steps of a worker, its writer and its reader

  /** Places among the channels g. */
  predicate OfGen(p: Place, g: GenId) {
    p == Outgoing(g) || p == WriterHand(g) || p == InFlight(g) || p == ReaderHand(g)
  }

  /** w is now in p and nothing else has moved within the channels. */
  ghost predicate Moved(x: Gen, x1: Gen, g: GenId, w: WorkId, p: Place) {
    && (forall v :: v in x1.chW <==> if v == w then p == Outgoing(g) else v in x.chW)
    && (forall v :: v in WriterHas(x1) <==> if v == w then p == WriterHand(g) else v in WriterHas(x))
    && (forall v :: v in x1.chR <==> if v == w then p == InFlight(g) else v in x.chR)
    && (forall v :: v in ReaderHas(x1) <==> if v == w then p == ReaderHand(g) else v in ReaderHas(x))
  }

  /** What a step that moves w within the channels g, out of them with a signal, or into the
      pool does to the world. */
  ghost predicate GenMove(s: World, s1: World, g: GenId, w: WorkId, p: Place) {
    && g in s.gens && w in s.place && OfGen(s.place[w], g)
    && (p == Free || p == Signalled || OfGen(p, g))
    && g in s1.gens && Moved(s.gens[g], s1.gens[g], g, w, p) && s1.gens[g].users == s.gens[g].users
    && s1 == (if p == Free then ReleaseWork(s, w) else if p == Signalled then Signal(s, w) else At(s, w, p))
             .(gens := s.gens[g := s1.gens[g]], raised := s1.raised)
    && GenOk(s1, g, s1.gens[g]) && FifoOk(s1.req, s1.gens[g])
  }

  lemma GenMoveIn(s: World, s1: World, g: GenId, w: WorkId, p: Place, q: Place, v: WorkId)
    requires GenMove(s, s1, g, w, p) && v != w
    ensures In(s1, q, v) <==> In(s, q, v)
  {
    hide GenOk, FifoOk, WriterHas, ReaderHas;
  }

  lemma GenMoveTarget(s: World, s1: World, g: GenId, w: WorkId, p: Place, q: Place)
    requires GenMove(s, s1, g, w, p) && (q != s.place[w] ==> !In(s, q, w))
    ensures In(s1, q, w) <==> q == p
  {
    hide GenOk, FifoOk, WriterHas, ReaderHas;
  }

  lemma GenMovePlaces(s: World, s1: World, g: GenId, w: WorkId, p: Place)
    requires PlacesOk(s) && GenMove(s, s1, g, w, p)
    ensures PlacesOk(s1)
  {
    hide PlacesOk, GenOk, FifoOk, In, Moved;
    forall q, v ensures In(s1, q, v) <==> v in s1.place && s1.place[v] == q {
      Lies(s, q, v);
      if v == w { GenMoveTarget(s, s1, g, w, p, q); } else { GenMoveIn(s, s1, g, w, p, q, v); }
    }
    PlacesFrom(s1);
  }

  lemma GenMoveSignals(s: World, s1: World, g: GenId, w: WorkId, p: Place)
    requires PlacesOk(s) && SignalsOk(s) && GenMove(s, s1, g, w, p)
    ensures SignalsOk(s1)
  {
    hide PlacesOk, SignalsOk, GenOk, FifoOk, Moved;
    Lies(s, Signalled, w);
    OneSignal(s, w);
    forall v ensures SignalOk(s1, v) { OneSignal(s, v); }
    SignalsFrom(s1);
  }

  /** Nobody waits on a work of channels that have no users. */
  lemma NobodyWaits(s: World, g: GenId, w: WorkId)
    requires WaitersOk(s) && UsersOk(s) && g in s.gens && s.gens[g].users == 0
    requires w in s.place && OfGen(s.place[w], g)
    ensures w !in s.waiter
    ensures forall t :: !Waits(s, t, w)
  {
    assert UsersOf(s, g) == {};
    forall t ensures !Waits(s, t, w) {
      OneWaiter(s, t, w);
      assert t !in UsersOf(s, g);
    }
    if w in s.waiter { OneWaiter(s, s.waiter[w], w); }
  }

  lemma GenMoveWaiters(s: World, s1: World, g: GenId, w: WorkId, p: Place)
    requires WaitersOk(s) && UsersOk(s) && GenMove(s, s1, g, w, p)
    requires p == Free ==> s.gens[g].users == 0
    ensures WaitersOk(s1)
  {
    hide WaitersOk, UsersOk, GenOk, FifoOk, Moved;
    if p == Free { NobodyWaits(s, g, w); }
    forall t, v ensures WaiterOk(s1, t, v) { OneWaiter(s, t, v); }
    WaitersFrom(s1);
  }

  /** Channels other than g do not change, and neither does anything their invariant reads. */
  lemma OtherGens(s: World, s1: World, g: GenId)
    requires GensOk(s) && g in s1.gens && s1.gens == s.gens[g := s1.gens[g]]
    requires s1.chs == s.chs && s1.cap == s.cap && s1.nextGen == s.nextGen && s1.req == s.req
    requires GenOk(s1, g, s1.gens[g]) && FifoOk(s1.req, s1.gens[g])
    ensures GensOk(s1)
  {
    hide FifoOk;
    forall h | h in s1.gens ensures GenOk(s1, h, s1.gens[h]) && FifoOk(s1.req, s1.gens[h]) {
      if h != g { OneGen(s, h); }
    }
  }

  lemma SameUsers(s: World, s1: World)
    requires UsersOk(s) && s1.callers == s.callers && s1.nextCaller == s.nextCaller
    requires s1.gens.Keys == s.gens.Keys
    requires forall h :: h in s.gens ==> s1.gens[h].users == s.gens[h].users
    ensures UsersOk(s1)
  {
    forall h | h in s1.gens ensures s1.gens[h].users == |UsersOf(s1, h)| {
      assert UsersOf(s1, h) == UsersOf(s, h);
    }
  }

  lemma GenMoveKeeps(s: World, s1: World, g: GenId, w: WorkId, p: Place)
    requires Inv(s) && GenMove(s, s1, g, w, p)
    requires p == Free ==> s.gens[g].users == 0
    ensures Inv(s1)
  {
    hide PlacesOk, SignalsOk, GensOk, UsersOk, WaitersOk, GenOk, FifoOk, Moved;
    GenMovePlaces(s, s1, g, w, p);
    GenMoveSignals(s, s1, g, w, p);
    GenMoveWaiters(s, s1, g, w, p);
    OtherGens(s, s1, g);
    SameUsers(s, s1);
  }

  /** A step that moves no work: only the state of the worker, its writer or its reader changes. */
  ghost predicate GenStill(s: World, s1: World, g: GenId) {
    && g in s.gens && g in s1.gens && s1 == SetGen(s, g, s1.gens[g]).(chs := s1.chs)
    && s1.gens[g].chW == s.gens[g].chW && s1.gens[g].chR == s.gens[g].chR
    && WriterHas(s1.gens[g]) == WriterHas(s.gens[g]) && ReaderHas(s1.gens[g]) == ReaderHas(s.gens[g])
    && s1.gens[g].users == s.gens[g].users
    && GenOk(s1, g, s1.gens[g]) && FifoOk(s1.req, s1.gens[g])
  }

  lemma StillIn(s: World, s1: World, g: GenId, q: Place, v: WorkId)
    requires GenStill(s, s1, g)
    ensures In(s1, q, v) <==> In(s, q, v)
  {
    hide GenOk, FifoOk, WriterHas, ReaderHas;
  }

  lemma SameWaiters(s: World, s1: World)
    requires WaitersOk(s) && s1.callers == s.callers && s1.waiter == s.waiter && s1.place == s.place
    ensures WaitersOk(s1)
  {
    forall t, v ensures WaiterOk(s1, t, v) { OneWaiter(s, t, v); }
  }

  lemma SameSignals(s: World, s1: World)
    requires SignalsOk(s) && s1.signals == s.signals && s1.sent == s.sent && s1.place == s.place
    requires s1.nextWork == s.nextWork
    ensures SignalsOk(s1)
  {
    forall v ensures SignalOk(s1, v) { OneSignal(s, v); }
  }

  lemma GenStillKeeps(s: World, s1: World, g: GenId)
    requires Inv(s) && GenStill(s, s1, g) && (s1.chs == s.chs || GensOk(s1))
    ensures Inv(s1)
  {
    hide PlacesOk, SignalsOk, GensOk, UsersOk, WaitersOk, GenOk, FifoOk, In;
    forall q, v ensures In(s1, q, v) <==> v in s1.place && s1.place[v] == q {
      Lies(s, q, v);
      StillIn(s, s1, g, q, v);
    }
    PlacesFrom(s1);
    SameSignals(s, s1);
    SameWaiters(s, s1);
    if s1.chs == s.chs { OtherGens(s, s1, g); }
    SameUsers(s, s1);
  }

  /** A work in the channels g is in no other of their places. */
  lemma OnlyIn(s: World, g: GenId, w: WorkId, p: Place)
    requires PlacesOk(s) && g in s.gens && OfGen(p, g) && In(s, p, w)
    ensures w in s.place && s.place[w] == p
    ensures w in s.gens[g].chW <==> p == Outgoing(g)
    ensures w in WriterHas(s.gens[g]) <==> p == WriterHand(g)
    ensures w in s.gens[g].chR <==> p == InFlight(g)
    ensures w in ReaderHas(s.gens[g]) <==> p == ReaderHand(g)
  {
    hide PlacesOk;
    Lies(s, p, w);
    Lies(s, Outgoing(g), w);
    Lies(s, WriterHand(g), w);
    Lies(s, InFlight(g), w);
    Lies(s, ReaderHand(g), w);
  }

  lemma TakeFirst(q: seq<WorkId>)
    requires Distinct(q) && q != []
    ensures Distinct(q[1..]) && forall v :: v in q[1..] <==> v != q[0] && v in q
  {
    assert q == [q[0]] + q[1..];
  }

  /** Owed has not changed, so neither has what is known of it. */
  lemma SameOwed(req: map<WorkId, Request>, x: Gen, x1: Gen)
    requires FifoOk(req, x) && x.worker.Running? && x1.worker.Running?
    requires x1.written == x.written && x1.credited == x.credited && x1.wire == x.wire
    requires x1.worker.reader.RDone? || (!x.worker.reader.RDone? && Owed(x1) == Owed(x))
    requires x.worker.writer.WDone? ==> x1.worker.writer.WDone?
    ensures FifoOk(req, x1)
  {
  }

  lemma WTakeKeeps(s: World, g: GenId)
    requires Inv(s) && Is(s, g)
    ensures Inv(WTakeStep(s, g))
  {
    hide PlacesOk, SignalsOk, GensOk, UsersOk, WaitersOk, FifoOk;
    var x, s1 := s.gens[g], WTakeStep(s, g);
    if x.worker.writer.WIdle? && x.chW != [] {
      var w := x.chW[0];
      OneGen(s, g);
      OnlyIn(s, g, w, Outgoing(g));
      TakeFirst(x.chW);
      SameOwed(s.req, x, s1.gens[g]);
      GenMoveKeeps(s, s1, g, w, WriterHand(g));
    }
  }

  lemma WExpireKeeps(s: World, g: GenId)
    requires Inv(s) && Is(s, g)
    ensures Inv(WExpireStep(s, g))
  {
    hide PlacesOk, SignalsOk, GensOk, UsersOk, WaitersOk, FifoOk;
    var x, s1 := s.gens[g], WExpireStep(s, g);
    if x.worker.writer.WHolds? {
      OneGen(s, g);
      OnlyIn(s, g, x.worker.writer.w, WriterHand(g));
      SameOwed(s.req, x, s1.gens[g]);
      GenMoveKeeps(s, s1, g, x.worker.writer.w, Signalled);
    }
  }

  /** The channels once the writer has put its request on the wire. */
  function WithWritten(x: Gen, r: Request): Gen
    requires x.worker.Running? && x.worker.writer.WHolds?
  {
    x.(written := x.written + [r], worker := x.worker.(writer := WWrote(x.worker.writer.w)))
  }

  lemma WriteOwed(req: map<WorkId, Request>, x: Gen)
    requires FifoOk(req, x) && x.worker.Running? && x.worker.writer.WHolds?
    ensures FifoOk(req, WithWritten(x, RequestOf(req, x.worker.writer.w)))
  {
    var r := RequestOf(req, x.worker.writer.w);
    WireGrows(x.wire, x.written, [r]);
    hide WireOk, OwedOk;
    if x.worker.Running? && !x.worker.reader.RDone? { WriteOrder(req, x); }
  }

  lemma WriteOrder(req: map<WorkId, Request>, x: Gen)
    requires x.worker.Running? && x.worker.writer.WHolds? && OwedOk(req, x)
    ensures OwedOk(req, WithWritten(x, RequestOf(req, x.worker.writer.w)))
  {
    var x1 := WithWritten(x, RequestOf(req, x.worker.writer.w));
    assert Owed(x1) == Owed(x) + [x.worker.writer.w];
  }

  lemma WWriteKeeps(s: World, g: GenId)
    requires Inv(s) && Is(s, g)
    ensures Inv(WWriteStep(s, g, true))
  {
    hide PlacesOk, SignalsOk, GensOk, UsersOk, WaitersOk, FifoOk;
    var x := s.gens[g];
    if x.worker.writer.WHolds? {
      OneGen(s, g);
      WriteOwed(s.req, x);
      GenStillKeeps(s, WWriteStep(s, g, true), g);
    }
  }

  lemma WFailKeeps(s: World, g: GenId)
    requires Inv(s) && Is(s, g)
    ensures Inv(WWriteStep(s, g, false))
  {
    hide PlacesOk, SignalsOk, GensOk, UsersOk, WaitersOk, FifoOk;
    var x, s1 := s.gens[g], WWriteStep(s, g, false);
    if x.worker.writer.WHolds? {
      OneGen(s, g);
      OnlyIn(s, g, x.worker.writer.w, WriterHand(g));
      SameOwed(s.req, x, s1.gens[g]);
      GenMoveKeeps(s, s1, g, x.worker.writer.w, Signalled);
    }
  }

  lemma WPushKeeps(s: World, g: GenId)
    requires Inv(s) && Is(s, g)
    ensures Inv(WPushStep(s, g))
  {
    hide PlacesOk, SignalsOk, GensOk, UsersOk, WaitersOk, FifoOk;
    var x, s1 := s.gens[g], WPushStep(s, g);
    if x.worker.writer.WWrote? && |x.chR| < s.cap {
      OneGen(s, g);
      OnlyIn(s, g, x.worker.writer.w, WriterHand(g));
      SameOwed(s.req, x, s1.gens[g]);
      GenMoveKeeps(s, s1, g, x.worker.writer.w, InFlight(g));
    }
  }

  lemma GiveUpOwed(req: map<WorkId, Request>, x: Gen)
    requires FifoOk(req, x) && x.worker.Running? && x.worker.writer.WWrote?
    ensures FifoOk(req, x.(worker := x.worker.(writer := WDone)))
  {
    var x1 := x.(worker := x.worker.(writer := WDone));
    if !x.worker.reader.RDone? {
      assert Owed(x) == Owed(x1) + [x.worker.writer.w];
      forall k | 0 <= k < |Owed(x1)| ensures RequestOf(req, Owed(x1)[k]) == x1.written[|x1.credited| + k] {
        assert Owed(x)[k] == Owed(x1)[k];
      }
    }
  }

  lemma WGiveUpKeeps(s: World, g: GenId)
    requires Inv(s) && Is(s, g)
    ensures Inv(WGiveUpStep(s, g))
  {
    hide PlacesOk, SignalsOk, GensOk, UsersOk, WaitersOk, FifoOk;
    var x, s1 := s.gens[g], WGiveUpStep(s, g);
    if x.worker.writer.WWrote? {
      OneGen(s, g);
      OnlyIn(s, g, x.worker.writer.w, WriterHand(g));
      GiveUpOwed(s.req, x);
      GenMoveKeeps(s, s1, g, x.worker.writer.w, Signalled);
    }
  }

  lemma WStopKeeps(s: World, g: GenId)
    requires Inv(s) && Is(s, g)
    ensures Inv(WStopStep(s, g))
  {
    hide PlacesOk, SignalsOk, GensOk, UsersOk, WaitersOk, FifoOk;
    var s1 := WStopStep(s, g);
    OneGen(s, g);
    if s.gens[g].worker.writer.WIdle? {
      SameOwed(s.req, s.gens[g], s1.gens[g]);
      GenStillKeeps(s, s1, g);
    }
  }

  lemma RTakeKeeps(s: World, g: GenId)
    requires Inv(s) && Is(s, g)
    ensures Inv(RTakeStep(s, g))
  {
    hide PlacesOk, SignalsOk, GensOk, UsersOk, WaitersOk, FifoOk;
    var x, s1 := s.gens[g], RTakeStep(s, g);
    if x.worker.reader.RIdle? && x.chR != [] {
      var w := x.chR[0];
      OneGen(s, g);
      OnlyIn(s, g, w, InFlight(g));
      TakeFirst(x.chR);
      assert x.chR == [w] + x.chR[1..];
      assert Owed(s1.gens[g]) == Owed(x);
      SameOwed(s.req, x, s1.gens[g]);
      GenMoveKeeps(s, s1, g, w, ReaderHand(g));
    }
  }

  /** The response goes to the oldest request that is owed one. */
  lemma ReadOwed(req: map<WorkId, Request>, x: Gen, a: Answer, junk: Junk)
    requires FifoOk(req, x) && x.worker.Running? && x.worker.reader.RHolds?
    ensures var r := RequestOf(req, x.worker.reader.w);
      var wire := ReadResponse(x.wire, x.written, r, a, junk);
      wire.Some? ==> FifoOk(req, Credit(x, r, wire.value))
  {
    var r := RequestOf(req, x.worker.reader.w);
    assert Owed(x)[0] == x.worker.reader.w;
    assert r == x.written[|x.credited|];
    ReadKeeps(x.wire, x.written, a, junk);
    hide WireOk;
    var wire := ReadResponse(x.wire, x.written, r, a, junk);
    if wire.Some? { ReadOrder(req, x, wire.value); }
  }

  lemma ReadOrder(req: map<WorkId, Request>, x: Gen, wire: Wire)
    requires FifoOk(req, x) && x.worker.Running? && x.worker.reader.RHolds?
    requires |wire.taken| == |x.wire.taken| + 1 && WireOk(wire, x.written)
    ensures FifoOk(req, Credit(x, RequestOf(req, x.worker.reader.w), wire))
  {
    hide WireOk;
    var x1 := Credit(x, RequestOf(req, x.worker.reader.w), wire);
    assert Owed(x) == [x.worker.reader.w] + Owed(x1);
    assert Owed(x)[0] == x.worker.reader.w;
    forall k | 0 <= k < |Owed(x1)| ensures RequestOf(req, Owed(x1)[k]) == x1.written[|x1.credited| + k] {
      assert Owed(x)[k + 1] == Owed(x1)[k];
    }
  }

  lemma FinishKeeps(s: World, g: GenId, x: Gen, w: WorkId, raised: set<Target>)
    requires Inv(s) && g in s.gens && w in s.place && OfGen(s.place[w], g) && x.users == s.gens[g].users
    requires Moved(s.gens[g], x, g, w, Signalled) && GenOk(s, g, x) && FifoOk(s.req, x)
    ensures Inv(Finish(s.(raised := raised), g, x, w))
  {
    hide Inv, Moved, FifoOk, Distinct;
    GenMoveKeeps(s, Finish(s.(raised := raised), g, x, w), g, w, Signalled);
  }

  lemma RReadKeeps(s: World, g: GenId, a: Answer, junk: Junk)
    requires Inv(s) && Is(s, g)
    ensures Inv(RReadStep(s, g, Answered(a, junk)))
  {
    hide PlacesOk, SignalsOk, GensOk, UsersOk, WaitersOk, FifoOk, ReadResponse, Finish;
    var x := s.gens[g];
    if x.worker.reader.RHolds? {
      var w := x.worker.reader.w;
      var req := RequestOf(s.req, w);
      var wire := ReadResponse(x.wire, x.written, req, a, junk);
      if wire.Some? {
        OneGen(s, g);
        OnlyIn(s, g, w, ReaderHand(g));
        ReadOwed(s.req, x, a, junk);
        FinishKeeps(s, g, Credit(x, req, wire.value), w, Raise(s, req).raised);
      }
    }
  }

  lemma RFailKeeps(s: World, g: GenId, out: ReadOutcome)
    requires Inv(s) && Is(s, g) && !out.Answered?
    ensures Inv(RReadStep(s, g, out))
  {
    hide PlacesOk, SignalsOk, GensOk, UsersOk, WaitersOk, FifoOk, Finish;
    var x := s.gens[g];
    if x.worker.reader.RHolds? {
      var w, x1 := x.worker.reader.w, x.(worker := x.worker.(reader := RDone));
      OneGen(s, g);
      OnlyIn(s, g, w, ReaderHand(g));
      SameOwed(s.req, x, x1);
      FinishKeeps(s, g, x1, w, if out.ReadFails? then Raise(s, RequestOf(s.req, w)).raised else s.raised);
    }
  }

  lemma RStopKeeps(s: World, g: GenId)
    requires Inv(s) && Is(s, g)
    ensures Inv(RStopStep(s, g))
  {
    hide PlacesOk, SignalsOk, GensOk, UsersOk, WaitersOk, FifoOk;
    var s1 := RStopStep(s, g);
    OneGen(s, g);
    if s.gens[g].worker.reader.RIdle? && s.gens[g].worker.stopR {
      SameOwed(s.req, s.gens[g], s1.gens[g]);
      GenStillKeeps(s, s1, g);
    }
  }

  /** With no connection up there is nothing owed. */
  lemma ClosedFifo(req: map<WorkId, Request>, x: Gen, x1: Gen)
    requires FifoOk(req, x) && !x1.worker.Running?
    requires x1.written == x.written && x1.credited == x.credited && x1.wire == x.wire
    ensures FifoOk(req, x1)
  {
  }

  /** Telling a half to stop changes nothing else. */
  lemma StopFlags(req: map<WorkId, Request>, x: Gen, stopW: bool, stopR: bool)
    requires FifoOk(req, x) && x.worker.Running?
    ensures FifoOk(req, x.(worker := x.worker.(stopW := stopW, stopR := stopR)))
  {
    assert Owed(x.(worker := x.worker.(stopW := stopW, stopR := stopR))) == Owed(x);
  }

  lemma JoinKeepsGen(s: World, g: GenId, w: Worker)
    requires GensOk(s) && Is(s, g)
    requires w == Draining || (w.Running? && w == s.gens[g].worker.(stopW := w.stopW, stopR := w.stopR))
    requires w == Draining ==> s.gens[g].worker.writer.WDone? && s.gens[g].worker.reader.RDone?
    ensures GenStill(s, SetGen(s, g, s.gens[g].(worker := w)), g)
  {
    hide GensOk, FifoOk, Distinct;
    var x := s.gens[g];
    OneGen(s, g);
    if w == Draining { ClosedFifo(s.req, x, x.(worker := w)); } else { StopFlags(s.req, x, w.stopW, w.stopR); }
  }

  lemma JoinKeeps(s: World, g: GenId)
    requires Inv(s) && Is(s, g)
    ensures Inv(JoinStep(s, g))
  {
    hide PlacesOk, SignalsOk, GensOk, UsersOk, WaitersOk, GenOk, FifoOk, GenStill;
    var s1 := JoinStep(s, g);
    JoinKeepsGen(s, g, s1.gens[g].worker);
    GenStillKeeps(s, s1, g);
  }

  lemma ConnectKeeps(s: World, g: GenId, ok: bool)
    requires Inv(s) && g in s.gens && s.gens[g].worker.Connecting?
    ensures Inv(ConnectStep(s, g, ok))
  {
    hide PlacesOk, SignalsOk, GensOk, UsersOk, WaitersOk;
    OneGen(s, g);
    GenStillKeeps(s, ConnectStep(s, g, ok), g);
  }

  lemma DrainKeeps(s: World, g: GenId)
    requires Inv(s) && g in s.gens && s.gens[g].worker.Draining?
    ensures Inv(DrainStep(s, g))
  {
    hide PlacesOk, SignalsOk, GensOk, UsersOk, WaitersOk, FifoOk, Distinct;
    var x := s.gens[g];
    OneGen(s, g);
    if x.chR == [] {
      ClosedFifo(s.req, x, x.(worker := Bottom));
      GenStillKeeps(s, DrainStep(s, g), g);
    } else {
      DrainOne(s, g);
    }
  }

  lemma DrainOne(s: World, g: GenId)
    requires Inv(s) && g in s.gens && s.gens[g].worker.Draining? && s.gens[g].chR != []
    ensures Inv(DrainStep(s, g))
  {
    hide PlacesOk, SignalsOk, GensOk, UsersOk, WaitersOk, FifoOk, Distinct;
    var x := s.gens[g];
    OneGen(s, g);
    ClosedFifo(s.req, x, x.(chR := x.chR[1..]));
    OnlyIn(s, g, x.chR[0], InFlight(g));
    TakeFirst(x.chR);
    GenMoveKeeps(s, DrainStep(s, g), g, x.chR[0], Signalled);
  }

  lemma DiscardKeeps(s: World, g: GenId)
    requires Inv(s) && g in s.gens && s.gens[g].worker.Discarding?
    ensures Inv(DiscardStep(s, g))
  {
    hide PlacesOk, SignalsOk, GensOk, UsersOk, WaitersOk, FifoOk, Distinct;
    var x, s1 := s.gens[g], DiscardStep(s, g);
    OneGen(s, g);
    ClosedFifo(s.req, x, s1.gens[g]);
    if x.chW == [] {
      GenStillKeeps(s, s1, g);
    } else {
      OnlyIn(s, g, x.chW[0], Outgoing(g));
      TakeFirst(x.chW);
      GenMoveKeeps(s, s1, g, x.chW[0], Free);
    }
  }

  lemma RetireKeeps(s: World, g: GenId)
    requires Inv(s) && g in s.gens
    ensures Inv(RetireStep(s, g))
  {
    hide PlacesOk, SignalsOk, GensOk, UsersOk, WaitersOk, FifoOk, GenOk, RetireStep;
    if s.gens[g].worker.Top? || s.gens[g].worker.Bottom? {
      RetireStill(s, g);
      if RetireStep(s, g).chs != s.chs { RetireGens(s, g); }
      GenStillKeeps(s, RetireStep(s, g), g);
    } else {
      RetireIdle(s, g);
    }
  }

  lemma RetireIdle(s: World, g: GenId)
    requires g in s.gens && !s.gens[g].worker.Top? && !s.gens[g].worker.Bottom?
    ensures RetireStep(s, g) == s
  {
  }

  lemma RetireStill(s: World, g: GenId)
    requires GensOk(s) && g in s.gens && (s.gens[g].worker.Top? || s.gens[g].worker.Bottom?)
    ensures GenStill(s, RetireStep(s, g), g)
  {
    hide GensOk, FifoOk, Distinct, Effect;
    OneGen(s, g);
    var x := s.gens[g];
    ClosedFifo(s.req, x, x.(worker := Discarding));
    ClosedFifo(s.req, x, x.(worker := if x.worker.Top? then Connecting else Top));
  }

  lemma StayRetired(s: World, s1: World, g: GenId, h: GenId)
    requires h in s.gens && GenOk(s, h, s.gens[h]) && s.chs == Some(g) && h != g
    requires s1.chs == None && s1.nextGen == s.nextGen && s1.cap == s.cap
    ensures GenOk(s1, h, s.gens[h])
  {
    hide Distinct;
  }

  lemma RetireGens(s: World, g: GenId)
    requires GensOk(s) && g in s.gens && RetireStep(s, g).chs != s.chs
    ensures GensOk(RetireStep(s, g))
  {
    hide GensOk, FifoOk, GenOk;
    var s1 := RetireStep(s, g);
    RetireStill(s, g);
    forall h | h in s1.gens ensures GenOk(s1, h, s1.gens[h]) && FifoOk(s1.req, s1.gens[h]) {
      if h != g {
        OneGen(s, h);
        StayRetired(s, s1, g, h);
      }
    }
    GensFrom(s1);
  }

  // ---- steps of a caller

  /** A caller goes on with the same channels, and no number of users changes. */
  lemma CallerUsers(s: World, s1: World, t: CallerId, c: Caller)
    requires UsersOk(s) && t in s.callers && c.g == s.callers[t].g
    requires s1.callers == s.callers[t := c] && s1.nextCaller == s.nextCaller && s1.gens.Keys == s.gens.Keys
    requires forall h :: h in s.gens ==> s1.gens[h].users == s.gens[h].users
    ensures UsersOk(s1)
  {
    forall h | h in s1.gens ensures s1.gens[h].users == |UsersOf(s1, h)| {
      assert UsersOf(s1, h) == UsersOf(s, h);
    }
  }

  /** The invariant of the channels does not look at callers, works or the pool. */
  lemma SameGens(s: World, s1: World)
    requires GensOk(s) && s1.gens == s.gens && s1.chs == s.chs && s1.cap == s.cap && s1.nextGen == s.nextGen
    requires s1.req == s.req
    ensures GensOk(s1)
  {
    hide FifoOk, Distinct;
  }

  /** The outgoing queue and the users do not matter to the order of responses. */
  lemma SameFifo(req: map<WorkId, Request>, x: Gen, x1: Gen)
    requires FifoOk(req, x) && x1 == x.(chW := x1.chW, users := x1.users)
    ensures FifoOk(req, x1)
  {
    if x.worker.Running? { assert Owed(x1) == Owed(x); }
  }

  /** Channels in use are not retired. */
  lemma InUse(s: World, t: CallerId)
    requires UsersOk(s) && GensOk(s) && t in s.callers
    ensures s.callers[t].g in s.gens && !Retired(s.gens[s.callers[t].g].worker) && s.gens[s.callers[t].g].users > 0
    ensures s.chs == Some(s.callers[t].g)
  {
    hide FifoOk, Distinct;
    assert t in UsersOf(s, s.callers[t].g);
  }

  predicate Holds(s: World, t: CallerId) { t in s.callers && s.callers[t].Holding? }

  lemma PushIn(s: World, t: CallerId, q: Place, v: WorkId)
    requires Holds(s, t) && s.callers[t].g in s.gens && |s.gens[s.callers[t].g].chW| < s.cap
    ensures v != s.callers[t].w ==> (In(PushStep(s, t), q, v) <==> In(s, q, v))
    ensures v == s.callers[t].w && (q != Mine(t) ==> !In(s, q, v)) ==>
      (In(PushStep(s, t), q, v) <==> q == Outgoing(s.callers[t].g))
  {
  }

  lemma PushPlaces(s: World, t: CallerId)
    requires PlacesOk(s) && Holds(s, t)
    ensures PlacesOk(PushStep(s, t))
  {
    hide PlacesOk;
    var s1, w := PushStep(s, t), s.callers[t].w;
    if s1 != s {
      assert In(s, Mine(t), w);
      hide In;
      Lies(s, Mine(t), w);
      forall q, v ensures In(s1, q, v) <==> v in s1.place && s1.place[v] == q {
        Lies(s, q, v);
        PushIn(s, t, q, v);
      }
      PlacesFrom(s1);
    }
  }

  lemma PushWaiters(s: World, t: CallerId)
    requires PlacesOk(s) && WaitersOk(s) && Holds(s, t)
    ensures WaitersOk(PushStep(s, t))
  {
    hide PlacesOk, WaitersOk;
    Lies(s, Mine(t), s.callers[t].w);
    forall u, v ensures WaiterOk(PushStep(s, t), u, v) { OneWaiter(s, u, v); }
    WaitersFrom(PushStep(s, t));
  }

  lemma PushSignals(s: World, t: CallerId)
    requires PlacesOk(s) && SignalsOk(s) && Holds(s, t)
    ensures SignalsOk(PushStep(s, t))
  {
    hide PlacesOk, SignalsOk;
    Lies(s, Mine(t), s.callers[t].w);
    forall v ensures SignalOk(PushStep(s, t), v) { OneSignal(s, v); }
    SignalsFrom(PushStep(s, t));
  }

  lemma PushKeeps(s: World, t: CallerId)
    requires Inv(s) && Holds(s, t)
    ensures Inv(PushStep(s, t))
  {
    hide PlacesOk, SignalsOk, GensOk, UsersOk, WaitersOk, FifoOk;
    PushPlaces(s, t);
    PushSignals(s, t);
    PushWaiters(s, t);
    var g, w, s1 := s.callers[t].g, s.callers[t].w, PushStep(s, t);
    if g in s.gens && |s.gens[g].chW| < s.cap {
      OneGen(s, g);
      InUse(s, t);
      Lies(s, Mine(t), w);
      Lies(s, Outgoing(g), w);
      SameFifo(s.req, s.gens[g], s1.gens[g]);
      assert Distinct(s1.gens[g].chW);
      OtherGens(s, s1, g);
      CallerUsers(s, s1, t, Awaiting(g, w, s.callers[t].timed));
    }
  }

  lemma EvictIn(s: World, t: CallerId, q: Place, v: WorkId)
    requires Holds(s, t) && !s.callers[t].timed && !s.callers[t].evicted && s.callers[t].g in s.gens
    requires var c := s.gens[s.callers[t].g].chW; c != [] && forall u :: u in c[1..] <==> u != c[0] && u in c
    ensures var w := s.gens[s.callers[t].g].chW[0];
      && (v != w ==> (In(EvictStep(s, t), q, v) <==> In(s, q, v)))
      && (v == w && (q != Outgoing(s.callers[t].g) ==> !In(s, q, v)) ==>
          (In(EvictStep(s, t), q, v) <==> q == Victim(t)))
  {
  }

  lemma EvictPlaces(s: World, t: CallerId)
    requires PlacesOk(s) && GensOk(s) && Holds(s, t)
    ensures PlacesOk(EvictStep(s, t))
  {
    hide PlacesOk, GensOk, FifoOk, Distinct;
    var g, s1 := s.callers[t].g, EvictStep(s, t);
    if g in s.gens && s.gens[g].chW != [] && !s.callers[t].timed && !s.callers[t].evicted {
      OneGen(s, g);
      TakeFirst(s.gens[g].chW);
      assert In(s, Outgoing(g), s.gens[g].chW[0]);
      hide In;
      Lies(s, Outgoing(g), s.gens[g].chW[0]);
      forall q, v ensures In(s1, q, v) <==> v in s1.place && s1.place[v] == q {
        Lies(s, q, v);
        EvictIn(s, t, q, v);
      }
    } else {
      forall q, v ensures In(s1, q, v) <==> v in s1.place && s1.place[v] == q { Lies(s, q, v); }
    }
    PlacesFrom(s1);
  }

  lemma EvictWaiters(s: World, t: CallerId)
    requires PlacesOk(s) && WaitersOk(s) && Holds(s, t)
    ensures WaitersOk(EvictStep(s, t))
  {
    hide PlacesOk, WaitersOk;
    var g, s1 := s.callers[t].g, EvictStep(s, t);
    if g in s.gens && s.gens[g].chW != [] { Lies(s, Outgoing(g), s.gens[g].chW[0]); }
    forall u, v ensures WaiterOk(s1, u, v) { OneWaiter(s, u, v); }
    WaitersFrom(s1);
  }

  lemma EvictSignals(s: World, t: CallerId)
    requires PlacesOk(s) && SignalsOk(s) && Holds(s, t)
    ensures SignalsOk(EvictStep(s, t))
  {
    hide PlacesOk, SignalsOk;
    var g, s1 := s.callers[t].g, EvictStep(s, t);
    if g in s.gens && s.gens[g].chW != [] { Lies(s, Outgoing(g), s.gens[g].chW[0]); }
    forall v ensures SignalOk(s1, v) { OneSignal(s, v); }
    SignalsFrom(s1);
  }

  lemma EvictGens(s: World, t: CallerId)
    requires GensOk(s) && Holds(s, t)
    ensures GensOk(EvictStep(s, t))
  {
    hide GensOk, FifoOk, Distinct;
    var g, s1 := s.callers[t].g, EvictStep(s, t);
    if g in s.gens && !s.callers[t].timed && !s.callers[t].evicted && s.gens[g].chW != [] {
      OneGen(s, g);
      TakeFirst(s.gens[g].chW);
      SameFifo(s.req, s.gens[g], s.gens[g].(chW := s.gens[g].chW[1..]));
      OtherGens(s, s1, g);
    } else {
      SameGens(s, s1);
    }
  }

  lemma EvictUsers(s: World, t: CallerId)
    requires UsersOk(s) && Holds(s, t)
    ensures UsersOk(EvictStep(s, t))
  {
    hide UsersOk;
    var g, s1 := s.callers[t].g, EvictStep(s, t);
    if g in s.gens && !s.callers[t].timed && !s.callers[t].evicted { CallerUsers(s, s1, t, s1.callers[t]); }
  }

  lemma EvictKeeps(s: World, t: CallerId)
    requires Inv(s) && Holds(s, t)
    ensures Inv(EvictStep(s, t))
  {
    hide PlacesOk, SignalsOk, GensOk, UsersOk, WaitersOk, EvictStep;
    EvictPlaces(s, t);
    EvictSignals(s, t);
    EvictWaiters(s, t);
    EvictGens(s, t);
    EvictUsers(s, t);
  }

  predicate Evicts(s: World, t: CallerId) { t in s.callers && s.callers[t].Evicting? }

  lemma SignalVictimIn(s: World, t: CallerId, q: Place, v: WorkId)
    requires Evicts(s, t)
    ensures v != s.callers[t].victim ==> (In(SignalVictimStep(s, t), q, v) <==> In(s, q, v))
    ensures v == s.callers[t].victim && Count(s.signals, v) <= 1 && (q != Victim(t) ==> !In(s, q, v)) ==>
      (In(SignalVictimStep(s, t), q, v) <==> q == Signalled)
  {
    hide WriterHas, ReaderHas;
  }

  lemma SignalVictimPlaces(s: World, t: CallerId)
    requires PlacesOk(s) && SignalsOk(s) && Evicts(s, t)
    ensures PlacesOk(SignalVictimStep(s, t))
  {
    hide PlacesOk, SignalsOk;
    var s1, w := SignalVictimStep(s, t), s.callers[t].victim;
    assert In(s, Victim(t), w);
    hide In;
    OneSignal(s, w);
    Lies(s, Victim(t), w);
    forall q, v ensures In(s1, q, v) <==> v in s1.place && s1.place[v] == q {
      Lies(s, q, v);
      SignalVictimIn(s, t, q, v);
    }
    PlacesFrom(s1);
  }

  lemma SignalVictimSignals(s: World, t: CallerId)
    requires PlacesOk(s) && SignalsOk(s) && Evicts(s, t)
    ensures SignalsOk(SignalVictimStep(s, t))
  {
    hide PlacesOk, SignalsOk;
    var s1 := SignalVictimStep(s, t);
    Lies(s, Victim(t), s.callers[t].victim);
    Lies(s, Signalled, s.callers[t].victim);
    forall v ensures SignalOk(s1, v) { OneSignal(s, v); }
    SignalsFrom(s1);
  }

  lemma SignalVictimWaiters(s: World, t: CallerId)
    requires PlacesOk(s) && WaitersOk(s) && Evicts(s, t)
    ensures WaitersOk(SignalVictimStep(s, t))
  {
    hide PlacesOk, WaitersOk;
    var s1 := SignalVictimStep(s, t);
    Lies(s, Victim(t), s.callers[t].victim);
    forall u, v ensures WaiterOk(s1, u, v) { OneWaiter(s, u, v); }
    WaitersFrom(s1);
  }

  lemma SignalVictimKeeps(s: World, t: CallerId)
    requires Inv(s) && Evicts(s, t)
    ensures Inv(SignalVictimStep(s, t))
  {
    hide PlacesOk, SignalsOk, GensOk, UsersOk, WaitersOk;
    SignalVictimPlaces(s, t);
    SignalVictimSignals(s, t);
    SignalVictimWaiters(s, t);
    SameGens(s, SignalVictimStep(s, t));
    CallerUsers(s, SignalVictimStep(s, t), t, SignalVictimStep(s, t).callers[t]);
  }

  predicate GivesUp(s: World, t: CallerId) { Holds(s, t) && (s.callers[t].timed || s.callers[t].evicted) }

  lemma GiveUpIn(s: World, t: CallerId, q: Place, v: WorkId)
    requires GivesUp(s, t)
    ensures v != s.callers[t].w ==> (In(GiveUpStep(s, t), q, v) <==> In(s, q, v))
    ensures v == s.callers[t].w && Count(s.signals, v) <= 1 && (q != Mine(t) ==> !In(s, q, v)) ==>
      (In(GiveUpStep(s, t), q, v) <==> q == Free)
  {
    hide WriterHas, ReaderHas;
  }

  lemma GiveUpPlaces(s: World, t: CallerId)
    requires PlacesOk(s) && SignalsOk(s) && GivesUp(s, t)
    ensures PlacesOk(GiveUpStep(s, t))
  {
    hide PlacesOk, SignalsOk;
    var s1, w := GiveUpStep(s, t), s.callers[t].w;
    assert In(s, Mine(t), w);
    hide In;
    OneSignal(s, w);
    Lies(s, Mine(t), w);
    forall q, v ensures In(s1, q, v) <==> v in s1.place && s1.place[v] == q {
      Lies(s, q, v);
      GiveUpIn(s, t, q, v);
    }
    PlacesFrom(s1);
  }

  lemma GiveUpSignals(s: World, t: CallerId)
    requires PlacesOk(s) && SignalsOk(s) && GivesUp(s, t)
    ensures SignalsOk(GiveUpStep(s, t))
  {
    hide PlacesOk, SignalsOk;
    var s1 := GiveUpStep(s, t);
    Lies(s, Mine(t), s.callers[t].w);
    Lies(s, Signalled, s.callers[t].w);
    forall v ensures SignalOk(s1, v) { OneSignal(s, v); }
    SignalsFrom(s1);
  }

  lemma GiveUpWaiters(s: World, t: CallerId)
    requires PlacesOk(s) && WaitersOk(s) && GivesUp(s, t)
    ensures WaitersOk(GiveUpStep(s, t))
  {
    hide PlacesOk, WaitersOk;
    var s1 := GiveUpStep(s, t);
    Lies(s, Mine(t), s.callers[t].w);
    forall u, v ensures WaiterOk(s1, u, v) { OneWaiter(s, u, v); }
    WaitersFrom(s1);
  }

  lemma GiveUpKeeps(s: World, t: CallerId)
    requires Inv(s) && GivesUp(s, t)
    ensures Inv(GiveUpStep(s, t))
  {
    hide PlacesOk, SignalsOk, GensOk, UsersOk, WaitersOk;
    GiveUpPlaces(s, t);
    GiveUpSignals(s, t);
    GiveUpWaiters(s, t);
    SameGens(s, GiveUpStep(s, t));
    CallerUsers(s, GiveUpStep(s, t), t, GiveUpStep(s, t).callers[t]);
  }

  predicate Receives(s: World, t: CallerId) {
    t in s.callers && s.callers[t].Awaiting? && s.callers[t].w in s.signals && s.signals[s.callers[t].w] > 0
  }

  lemma ReceiveIn(s: World, t: CallerId, q: Place, v: WorkId)
    requires Receives(s, t)
    ensures v != s.callers[t].w ==> (In(ReceiveStep(s, t), q, v) <==> In(s, q, v))
    ensures v == s.callers[t].w && Count(s.signals, v) <= 1 && (q != Signalled ==> !In(s, q, v)) ==>
      (In(ReceiveStep(s, t), q, v) <==> q == Free)
  {
    hide WriterHas, ReaderHas;
  }

  lemma ReceivePlaces(s: World, t: CallerId)
    requires PlacesOk(s) && SignalsOk(s) && Receives(s, t)
    ensures PlacesOk(ReceiveStep(s, t))
  {
    hide PlacesOk, SignalsOk;
    var s1, w := ReceiveStep(s, t), s.callers[t].w;
    assert In(s, Signalled, w);
    hide In;
    OneSignal(s, w);
    Lies(s, Signalled, w);
    forall q, v ensures In(s1, q, v) <==> v in s1.place && s1.place[v] == q {
      Lies(s, q, v);
      ReceiveIn(s, t, q, v);
    }
    PlacesFrom(s1);
  }

  lemma ReceiveSignals(s: World, t: CallerId)
    requires PlacesOk(s) && SignalsOk(s) && Receives(s, t)
    ensures SignalsOk(ReceiveStep(s, t))
  {
    hide PlacesOk, SignalsOk;
    var s1 := ReceiveStep(s, t);
    Lies(s, Signalled, s.callers[t].w);
    Lies(s, Signalled, s.callers[t].w);
    forall v ensures SignalOk(s1, v) { OneSignal(s, v); }
    SignalsFrom(s1);
  }

  lemma ReceiveWaiters(s: World, t: CallerId)
    requires PlacesOk(s) && WaitersOk(s) && Receives(s, t)
    ensures WaitersOk(ReceiveStep(s, t))
  {
    hide PlacesOk, WaitersOk;
    var s1 := ReceiveStep(s, t);
    Lies(s, Signalled, s.callers[t].w);
    OneWaiter(s, t, s.callers[t].w);
    forall u, v ensures WaiterOk(s1, u, v) { OneWaiter(s, u, v); }
    WaitersFrom(s1);
  }

  lemma ReceiveKeeps(s: World, t: CallerId)
    requires Inv(s) && Receives(s, t)
    ensures Inv(ReceiveStep(s, t))
  {
    hide PlacesOk, SignalsOk, GensOk, UsersOk, WaitersOk;
    ReceivePlaces(s, t);
    ReceiveSignals(s, t);
    ReceiveWaiters(s, t);
    SameGens(s, ReceiveStep(s, t));
    CallerUsers(s, ReceiveStep(s, t), t, ReceiveStep(s, t).callers[t]);
  }

  predicate Waiting(s: World, t: CallerId) { t in s.callers && s.callers[t].Awaiting? }

  lemma AbandonIn(s: World, t: CallerId, q: Place, v: WorkId)
    requires Waiting(s, t)
    ensures In(AbandonStep(s, t), q, v) <==> In(s, q, v)
  {
    hide WriterHas, ReaderHas;
  }

  lemma AbandonKeeps(s: World, t: CallerId)
    requires Inv(s) && Waiting(s, t)
    ensures Inv(AbandonStep(s, t))
  {
    hide PlacesOk, SignalsOk, GensOk, UsersOk, WaitersOk, In;
    var s1 := AbandonStep(s, t);
    forall q, v ensures In(s1, q, v) <==> v in s1.place && s1.place[v] == q {
      Lies(s, q, v);
      AbandonIn(s, t, q, v);
    }
    PlacesFrom(s1);
    SameSignals(s, s1);
    SameGens(s, s1);
    CallerUsers(s, s1, t, Leaving(s.callers[t].g));
    OneWaiter(s, t, s.callers[t].w);
    forall u, v ensures WaiterOk(s1, u, v) { OneWaiter(s, u, v); }
    WaitersFrom(s1);
  }

  predicate Leaves(s: World, t: CallerId) { t in s.callers && (s.callers[t].Leaving? || s.callers[t].Inside?) }

  /** Works do not depend on the number of users. */
  lemma UsersHands(x: Gen, n: nat)
    ensures WriterHas(x.(users := n)) == WriterHas(x) && ReaderHas(x.(users := n)) == ReaderHas(x)
  {
  }

  lemma UsersIn(s: World, g: GenId, n: nat, q: Place, v: WorkId)
    requires g in s.gens
    ensures In(SetGen(s, g, s.gens[g].(users := n)), q, v) <==> In(s, q, v)
  {
    UsersHands(s.gens[g], n);
    hide WriterHas, ReaderHas;
  }

  lemma GoneIn(s: World, t: CallerId, q: Place, v: WorkId)
    requires Leaves(s, t)
    ensures In(s.(callers := s.callers - {t}), q, v) <==> In(s, q, v)
  {
    hide WriterHas, ReaderHas;
  }

  lemma LeaveIn(s: World, t: CallerId, q: Place, v: WorkId)
    requires Leaves(s, t)
    ensures In(LeaveStep(s, t), q, v) <==> In(s, q, v)
  {
    hide In;
    GoneIn(s, t, q, v);
    var g := s.callers[t].g;
    if g in s.gens && s.gens[g].users > 0 { UsersIn(s.(callers := s.callers - {t}), g, s.gens[g].users - 1, q, v); }
  }

  lemma LeavePlaces(s: World, t: CallerId)
    requires PlacesOk(s) && Leaves(s, t)
    ensures PlacesOk(LeaveStep(s, t))
  {
    hide PlacesOk, In;
    var s1 := LeaveStep(s, t);
    forall q, v ensures In(s1, q, v) <==> v in s1.place && s1.place[v] == q {
      Lies(s, q, v);
      LeaveIn(s, t, q, v);
    }
    PlacesFrom(s1);
  }

  lemma LeaveWaiters(s: World, t: CallerId)
    requires PlacesOk(s) && WaitersOk(s) && Leaves(s, t)
    ensures WaitersOk(LeaveStep(s, t))
  {
    hide PlacesOk, WaitersOk;
    var s1 := LeaveStep(s, t);
    forall u, v ensures WaiterOk(s1, u, v) {
      OneWaiter(s, u, v);
      Lies(s, Victim(t), v);
    }
    WaitersFrom(s1);
  }

  lemma LeaveUsers(s: World, t: CallerId)
    requires UsersOk(s) && Leaves(s, t) && s.callers[t].g in s.gens && s.gens[s.callers[t].g].users > 0
    ensures UsersOk(LeaveStep(s, t))
  {
    var g, s1 := s.callers[t].g, LeaveStep(s, t);
    forall h | h in s1.gens ensures s1.gens[h].users == |UsersOf(s1, h)| {
      assert UsersOf(s1, h) == UsersOf(s, h) - {t};
    }
  }

  lemma LeaveGens(s: World, t: CallerId)
    requires GensOk(s) && Leaves(s, t) && s.callers[t].g in s.gens && s.gens[s.callers[t].g].users > 0
    ensures GensOk(LeaveStep(s, t))
  {
    hide GensOk, FifoOk, Distinct;
    var g := s.callers[t].g;
    var x := s.gens[g];
    OneGen(s, g);
    SameFifo(s.req, x, x.(users := x.users - 1));
    OtherGens(s, LeaveStep(s, t), g);
  }

  lemma LeaveKeeps(s: World, t: CallerId)
    requires Inv(s) && Leaves(s, t)
    ensures Inv(LeaveStep(s, t))
  {
    hide PlacesOk, SignalsOk, GensOk, UsersOk, WaitersOk;
    InUse(s, t);
    LeavePlaces(s, t);
    SameSignals(s, LeaveStep(s, t));
    LeaveWaiters(s, t);
    LeaveGens(s, t);
    LeaveUsers(s, t);
  }

  lemma EnterIn(s: World, q: Place, v: WorkId)
    requires s.nextCaller !in s.callers
    ensures In(EnterStep(s), q, v) <==> In(s, q, v)
  {
    var g := Current(s);
    if g in s.gens { UsersHands(s.gens[g], s.gens[g].users + 1); } else { NoHands(); }
    hide WriterHas, ReaderHas;
  }

  lemma NoHands()
    ensures WriterHas(NewGen()) == [] && ReaderHas(NewGen()) == []
  {
  }

  lemma EnterPlaces(s: World)
    requires PlacesOk(s) && s.nextCaller !in s.callers
    ensures PlacesOk(EnterStep(s))
  {
    hide PlacesOk, In;
    var s1 := EnterStep(s);
    forall q, v ensures In(s1, q, v) <==> v in s1.place && s1.place[v] == q {
      Lies(s, q, v);
      EnterIn(s, q, v);
    }
    PlacesFrom(s1);
  }

  lemma EnterWaiters(s: World)
    requires WaitersOk(s) && s.nextCaller !in s.callers
    ensures WaitersOk(EnterStep(s))
  {
    hide WaitersOk;
    forall u, v ensures WaiterOk(EnterStep(s), u, v) { OneWaiter(s, u, v); }
    WaitersFrom(EnterStep(s));
  }

  lemma MoreUsers(s: World, h: GenId)
    requires s.nextCaller !in s.callers
    ensures |UsersOf(EnterStep(s), h)| == |UsersOf(s, h)| + if h == Current(s) then 1 else 0
  {
    assert UsersOf(EnterStep(s), h) == UsersOf(s, h) + (if h == Current(s) then {s.nextCaller} else {});
  }

  lemma NoUsers(s: World, g: GenId)
    requires UsersOk(s) && g !in s.gens
    ensures UsersOf(s, g) == {}
  {
  }

  lemma EnterUsers(s: World)
    requires UsersOk(s) && s.nextCaller !in s.callers
    ensures UsersOk(EnterStep(s))
  {
    var g, s1 := Current(s), EnterStep(s);
    if g !in s.gens { NoUsers(s, g); }
    hide UsersOf;
    forall h | h in s1.gens ensures s1.gens[h].users == |UsersOf(s1, h)| { MoreUsers(s, h); }
  }

  lemma EnterGens(s: World)
    requires GensOk(s) && s.nextGen !in s.gens
    ensures GensOk(EnterStep(s))
  {
    hide GensOk, FifoOk, Distinct;
    var g, s1 := Current(s), EnterStep(s);
    CurrentOk(s);
    forall h | h in s1.gens ensures GenOk(s1, h, s1.gens[h]) && FifoOk(s1.req, s1.gens[h]) {
      if h in s.gens {
        OneGen(s, h);
        SameFifo(s.req, s.gens[h], s1.gens[h]);
      } else {
        NewGenOk(s);
      }
    }
    GensFrom(s1);
  }

  lemma CurrentOk(s: World)
    requires GensOk(s)
    ensures s.chs.Some? ==> s.chs.value in s.gens
  {
  }

  lemma NewGenOk(s: World)
    requires s.chs.None? && s.nextGen !in s.gens
    ensures var s1 := EnterStep(s); GenOk(s1, s.nextGen, s1.gens[s.nextGen]) && FifoOk(s1.req, s1.gens[s.nextGen])
  {
  }

  lemma Fresh(s: World)
    requires GensOk(s) && UsersOk(s)
    ensures s.nextGen !in s.gens && s.nextCaller !in s.callers
  {
    hide FifoOk, Distinct;
  }

  lemma EnterKeeps(s: World)
    requires Inv(s)
    ensures Inv(EnterStep(s))
  {
    hide PlacesOk, SignalsOk, WaitersOk, GensOk, UsersOk;
    Fresh(s);
    EnterPlaces(s);
    SameSignals(s, EnterStep(s));
    EnterWaiters(s);
    EnterGens(s);
    EnterUsers(s);
  }

  predicate Arrived(s: World, t: CallerId) { t in s.callers && s.callers[t].Inside? }

  lemma RecycledIn(s: World, w: WorkId, q: Place, v: WorkId)
    ensures In(s.(workPool := s.workPool - {w}), q, v) <==> In(s, q, v) && (q != Free || v != w)
  {
    hide WriterHas, ReaderHas;
  }

  lemma CreatedIn(s: World, q: Place, v: WorkId)
    requires s.nextWork in s.signals ==> s.signals[s.nextWork] == 0
    ensures In(s.(nextWork := s.nextWork + 1, signals := s.signals[s.nextWork := 0]), q, v) <==> In(s, q, v)
  {
    hide WriterHas, ReaderHas;
  }

  lemma PooledIn(s: World, reuse: Option<WorkId>, q: Place, v: WorkId)
    requires s.nextWork !in s.workPool && (s.nextWork in s.signals ==> s.signals[s.nextWork] == 0)
    ensures In(Pooled(s, reuse), q, v) <==> In(s, q, v) && (q != Free || v != Acquired(s, reuse))
  {
    RecycledIn(s, s.nextWork, q, v);
    hide In;
    CreatedIn(s, q, v);
    if reuse.Some? { RecycledIn(s, reuse.value, q, v); }
    if s.nextWork !in s.workPool && q == Free && v == s.nextWork { NewIsNotFree(s); }
  }

  lemma NewIsNotFree(s: World)
    requires s.nextWork !in s.workPool
    ensures !In(s, Free, s.nextWork)
  {
  }

  lemma AssignIn(s: World, t: CallerId, w: WorkId, call: Call, q: Place, v: WorkId)
    requires Arrived(s, t)
    ensures In(Assign(s, t, w, call), q, v) <==> In(s, q, v) || (v == w && q == Mine(t))
  {
    hide WriterHas, ReaderHas;
  }

  lemma AcquirePlaces(s: World, t: CallerId, call: Call, reuse: Option<WorkId>)
    requires PlacesOk(s) && SignalsOk(s) && Arrived(s, t)
    ensures PlacesOk(AcquireStep(s, t, call, reuse))
  {
    hide PlacesOk, SignalsOk;
    var s1, w := AcquireStep(s, t, call, reuse), Acquired(s, reuse);
    OneSignal(s, s.nextWork);
    Lies(s, Free, w);
    Lies(s, Free, s.nextWork);
    Lies(s, Signalled, s.nextWork);
    assert In(s, Free, w) <==> w in s.workPool;
    assert s.nextWork !in s.workPool;
    assert s.nextWork in s.signals ==> s.signals[s.nextWork] == 0;
    hide In;
    forall q, v ensures In(s1, q, v) <==> v in s1.place && s1.place[v] == q {
      Lies(s, q, v);
      PooledIn(s, reuse, q, v);
      AssignIn(Pooled(s, reuse), t, w, call, q, v);
    }
    PlacesFrom(s1);
  }

  lemma AcquireSignals(s: World, t: CallerId, call: Call, reuse: Option<WorkId>)
    requires PlacesOk(s) && SignalsOk(s) && Arrived(s, t)
    ensures SignalsOk(AcquireStep(s, t, call, reuse))
  {
    hide PlacesOk, SignalsOk, Effect, RequestFor;
    var s1, w := AcquireStep(s, t, call, reuse), Acquired(s, reuse);
    Lies(s, Free, w);
    Lies(s, Signalled, w);
    forall v ensures SignalOk(s1, v) { OneSignal(s, v); }
    SignalsFrom(s1);
  }

  lemma AssignWaiters(s: World, t: CallerId, w: WorkId, call: Call)
    requires WaitersOk(s) && Arrived(s, t) && (w in s.place ==> s.place[w] == Free)
    ensures WaitersOk(Assign(s, t, w, call))
  {
    hide WaitersOk;
    forall u, v ensures WaiterOk(Assign(s, t, w, call), u, v) { OneWaiter(s, u, v); }
    WaitersFrom(Assign(s, t, w, call));
  }

  lemma AcquireWaiters(s: World, t: CallerId, call: Call, reuse: Option<WorkId>)
    requires PlacesOk(s) && SignalsOk(s) && WaitersOk(s) && Arrived(s, t)
    ensures WaitersOk(AcquireStep(s, t, call, reuse))
  {
    hide PlacesOk, SignalsOk, WaitersOk;
    Lies(s, Free, Acquired(s, reuse));
    OneSignal(s, Acquired(s, reuse));
    SameWaiters(s, Pooled(s, reuse));
    AssignWaiters(Pooled(s, reuse), t, Acquired(s, reuse), call);
  }

  /** A work that is owed a response is not acquired again, so its request stays the same. */
  lemma AcquireFifo(s: World, g: GenId, w: WorkId, r: Request)
    requires PlacesOk(s) && g in s.gens && FifoOk(s.req, s.gens[g])
    requires w in s.place ==> s.place[w] == Free
    ensures FifoOk(s.req[w := r], s.gens[g])
  {
    hide PlacesOk;
    var x := s.gens[g];
    if x.worker.Running? && !x.worker.reader.RDone? {
      Lies(s, ReaderHand(g), w);
      Lies(s, InFlight(g), w);
      Lies(s, WriterHand(g), w);
      forall k | 0 <= k < |Owed(x)| ensures RequestOf(s.req[w := r], Owed(x)[k]) == x.written[|x.credited| + k] {
        assert Owed(x)[k] in Owed(x);
      }
    }
  }

  lemma AcquireGens(s: World, t: CallerId, call: Call, reuse: Option<WorkId>)
    requires PlacesOk(s) && SignalsOk(s) && GensOk(s) && Arrived(s, t)
    ensures GensOk(AcquireStep(s, t, call, reuse))
  {
    hide PlacesOk, SignalsOk, FifoOk, Distinct;
    var s1, w := AcquireStep(s, t, call, reuse), Acquired(s, reuse);
    Lies(s, Free, w);
    OneSignal(s, w);
    forall g | g in s1.gens ensures GenOk(s1, g, s1.gens[g]) && FifoOk(s1.req, s1.gens[g]) {
      OneGen(s, g);
      AcquireFifo(s, g, w, RequestFor(Pooled(s, reuse), w, call));
    }
  }

  lemma AcquireUsers(s: World, t: CallerId, call: Call, reuse: Option<WorkId>)
    requires UsersOk(s) && Arrived(s, t)
    ensures UsersOk(AcquireStep(s, t, call, reuse))
  {
    hide UsersOk;
    CallerUsers(s, AcquireStep(s, t, call, reuse), t, Holding(s.callers[t].g, Acquired(s, reuse), call.timed, false));
  }

  lemma AcquireKeeps(s: World, t: CallerId, call: Call, reuse: Option<WorkId>)
    requires Inv(s) && Arrived(s, t)
    ensures Inv(AcquireStep(s, t, call, reuse))
  {
    hide PlacesOk, SignalsOk, GensOk, UsersOk, WaitersOk, AcquireStep;
    AcquirePlaces(s, t, call, reuse);
    AcquireSignals(s, t, call, reuse);
    AcquireWaiters(s, t, call, reuse);
    AcquireGens(s, t, call, reuse);
    AcquireUsers(s, t, call, reuse);
  }

  /** Nothing in the invariant looks at SkipBody. */
  lemma SkipKeeps(s: World, r: RespId, on: bool)
    requires Inv(s)
    ensures Inv(SkipStep(s, r, on))
  {
    hide PlacesOk, SignalsOk, GensOk, UsersOk, WaitersOk;
    var s1 := SkipStep(s, r, on);
    forall q, v ensures In(s1, q, v) <==> v in s1.place && s1.place[v] == q { Lies(s, q, v); }
    PlacesFrom(s1);
    SameSignals(s, s1);
    SameWaiters(s, s1);
    SameGens(s, s1);
    SameUsers(s, s1);
  }

  // ---- whole runs

  /** The channels a step works on. */
  function Channels(s: World, step: Step): GenId {
    match step
    case Enter => Current(s)
    case AcquireWork(t, _, _) => if t in s.callers then s.callers[t].g else 0
    case Push(t) => if t in s.callers then s.callers[t].g else 0
    case Evict(t) => if t in s.callers then s.callers[t].g else 0
    case SignalVictim(t) => if t in s.callers then s.callers[t].g else 0
    case GiveUpPush(t) => if t in s.callers then s.callers[t].g else 0
    case Receive(t) => if t in s.callers then s.callers[t].g else 0
    case Abandon(t) => if t in s.callers then s.callers[t].g else 0
    case Leave(t) => if t in s.callers then s.callers[t].g else 0
    case SetSkipBody(_, _) => 0
    case _ => step.g
  }

  lemma StepEffect(s: World, step: Step)
    ensures Effect(s, Next(s, step), Channels(s, step))
  {
    NoEffect(s, Channels(s, step));
    hide EnterStep, AcquireStep, PushStep, EvictStep, GiveUpStep, SignalVictimStep, ReceiveStep, AbandonStep, LeaveStep,
         RetireStep, ConnectStep, JoinStep, DrainStep, DiscardStep, WTakeStep, WExpireStep, WWriteStep, WPushStep,
         WGiveUpStep, WStopStep, RTakeStep, RReadStep, RStopStep, SkipStep, Effect;
  }

  lemma NoEffect(s: World, g: GenId)
    ensures Effect(s, s, g)
  {
  }

  lemma StepKeeps(s: World, step: Step)
    requires Inv(s)
    ensures Inv(Next(s, step))
  {
    hide Inv, EnterStep, AcquireStep, PushStep, EvictStep, SignalVictimStep, AbandonStep, LeaveStep,
         RetireStep, ConnectStep, JoinStep, DrainStep, DiscardStep, WTakeStep, WExpireStep, WWriteStep, WPushStep,
         WGiveUpStep, WStopStep, RTakeStep, RReadStep, RStopStep, SkipStep, Effect;
    match step
    case Enter => EnterKeeps(s);
    case AcquireWork(t, call, reuse) => if Arrived(s, t) { AcquireKeeps(s, t, call, reuse); }
    case Push(t) => if Holds(s, t) { PushKeeps(s, t); }
    case Evict(t) => if Holds(s, t) { EvictKeeps(s, t); }
    case SignalVictim(t) => if Evicts(s, t) { SignalVictimKeeps(s, t); }
    case GiveUpPush(t) => if GivesUp(s, t) { GiveUpKeeps(s, t); }
    case Receive(t) => if Receives(s, t) { ReceiveKeeps(s, t); }
    case Abandon(t) => if Waiting(s, t) { AbandonKeeps(s, t); }
    case Leave(t) => if Leaves(s, t) { LeaveKeeps(s, t); }
    case SetSkipBody(r, on) => SkipKeeps(s, r, on);
    case TryRetire(g) => if g in s.gens { RetireKeeps(s, g); }
    case Connect(g, ok) => if g in s.gens && s.gens[g].worker.Connecting? { ConnectKeeps(s, g, ok); }
    case Join(g) => if Is(s, g) { JoinKeeps(s, g); }
    case Drain(g) => if g in s.gens && s.gens[g].worker.Draining? { DrainKeeps(s, g); }
    case Discard(g) => if g in s.gens && s.gens[g].worker.Discarding? { DiscardKeeps(s, g); }
    case WTake(g) => if Is(s, g) { WTakeKeeps(s, g); }
    case WExpire(g) => if Is(s, g) { WExpireKeeps(s, g); }
    case WWrite(g, ok) => if Is(s, g) { if ok { WWriteKeeps(s, g); } else { WFailKeeps(s, g); } }
    case WPush(g) => if Is(s, g) { WPushKeeps(s, g); }
    case WGiveUp(g) => if Is(s, g) { WGiveUpKeeps(s, g); }
    case WStop(g) => if Is(s, g) { WStopKeeps(s, g); }
    case RTake(g) => if Is(s, g) { RTakeKeeps(s, g); }
    case RRead(g, out) =>
      if Is(s, g) {
        if out.Answered? { RReadKeeps(s, g, out.a, out.junk); } else { RFailKeeps(s, g, out); }
      }
    case RStop(g) => if Is(s, g) { RStopKeeps(s, g); }
  }

  lemma InitialInv(cap: nat)
    ensures Inv(Initial(cap))
  {
  }

  /** Every run from an idle client keeps the invariant. */
  lemma {:induction false} RunKeeps(s: World, steps: seq<Step>)
    requires Inv(s)
    ensures Inv(Run(s, steps))
  {
    hide Inv;
    if steps != [] {
      RunKeeps(s, steps[..|steps| - 1]);
      StepKeeps(Run(s, steps[..|steps| - 1]), steps[|steps| - 1]);
    }
  }
}
