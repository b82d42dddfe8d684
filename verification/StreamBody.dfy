/** A streamed response body and the connection behind it (fasthttp/client.go:3479-3663). Reads
    are serialized by a lock; the first close interrupts a read in flight, waits for it, and
    gives the connection back. One step is one operation on an atomic, a lock or the Once. */
module StreamBody {
  import opened Common
  import opened ResponseWire

  type Id = nat

  datatype Owner = ByReader(r: Id) | ByCloser

  /** A Read call: past its first look at closed, with the lock, or inside the reader. */
  datatype ReadCall = Waiting | Locked | InRead

  /** The function that closeOnce runs. */
  datatype Phase =
    | Begin
    | Stored                                       // closed is set
    | Tried(locked: bool)
    | Decided(locked: bool, discard: bool)         // interrupted if it is to be discarded
    | Holding(discard: bool)
    | Released

  datatype Once = NotCalled | Running(phase: Phase, failed: bool) | Finished

  /** `released` are every call of release, each with its discard argument. */
  datatype Body = Body(
    closed: bool,
    lock: Option<Owner>,
    once: Once,
    fullyRead: bool,
    interrupted: bool,
    released: seq<bool>,
    calls: map<Id, ReadCall>,
    nextId: Id)

  datatype Step =
    | StartRead
    | ReadLock(r: Id)
    | ReadCheck(r: Id)
    | ReadReturn(r: Id, eof: bool)
    | CloseCall(failed: bool)                      // CloseWithError; later calls wait for the first
    | StoreClosed
    | TryLock
    | Decide
    | WaitLock
    | CallRelease
    | Unlock

  function Next(s: Body, step: Step): Body {
    match step
    case StartRead => if s.closed then s else s.(calls := s.calls[s.nextId := Waiting], nextId := s.nextId + 1)
    case ReadLock(r) =>
      if r in s.calls && s.calls[r].Waiting? && s.lock.None?
      then s.(lock := Some(ByReader(r)), calls := s.calls[r := Locked]) else s
    case ReadCheck(r) =>
      if r !in s.calls || !s.calls[r].Locked? then s
      else if s.closed then s.(lock := None, calls := s.calls - {r})
      else s.(calls := s.calls[r := InRead])
    case ReadReturn(r, eof) =>
      if r in s.calls && s.calls[r].InRead?
      then s.(lock := None, calls := s.calls - {r}, fullyRead := s.fullyRead || eof) else s
    case CloseCall(failed) => if s.once.NotCalled? then s.(once := Running(Begin, failed)) else s
    case StoreClosed => if At(s, Begin) then s.(closed := true, once := s.once.(phase := Stored)) else s
    case TryLock =>
      if !At(s, Stored) then s
      else if s.lock.None? then s.(lock := Some(ByCloser), once := s.once.(phase := Tried(true)))
      else s.(once := s.once.(phase := Tried(false)))
    case Decide =>
      if !s.once.Running? || !s.once.phase.Tried? then s
      else
        var locked := s.once.phase.locked;
        var discard := s.once.failed || !locked || !s.fullyRead;
        s.(interrupted := s.interrupted || discard,
           once := s.once.(phase := if locked then Holding(discard) else Decided(locked, discard)))
    case WaitLock =>
      if s.once.Running? && s.once.phase.Decided? && s.lock.None?
      then s.(lock := Some(ByCloser), once := s.once.(phase := Holding(s.once.phase.discard))) else s
    case CallRelease =>
      if s.once.Running? && s.once.phase.Holding?
      then s.(released := s.released + [s.once.phase.discard], once := s.once.(phase := Released)) else s
    case Unlock => if At(s, Released) then s.(lock := None, once := Finished) else s
  }

  predicate At(s: Body, p: Phase) { s.once.Running? && s.once.phase == p }

  function Run(s: Body, steps: seq<Step>): Body {
    if steps == [] then s else Next(Run(s, steps[..|steps| - 1]), steps[|steps| - 1])
  }

  function Initial(empty: bool): Body { Body(false, None, NotCalled, empty, false, [], map[], 0) }

  // ---- what every step keeps

  predicate CloserLocks(o: Once) {
    o.Running? && (o.phase == Tried(true) || o.phase.Holding? || o.phase.Released?)
  }

  /** release has been called or nothing can stop it from being called now. */
  predicate Settled(o: Once) { o.Finished? || (o.Running? && (o.phase.Holding? || o.phase.Released?)) }

  ghost predicate Inv(s: Body) {
    && (forall r :: r in s.calls && !s.calls[r].Waiting? <==> s.lock == Some(ByReader(r)))
    && (forall r :: r in s.calls ==> r < s.nextId)
    && (s.lock == Some(ByCloser) <==> CloserLocks(s.once))
    && (s.closed <==> !s.once.NotCalled? && !At(s, Begin))
    && (Settled(s.once) ==> forall r :: r in s.calls ==> !s.calls[r].InRead?)
    && (s.once.Running? && s.once.phase.Decided? ==> s.interrupted && s.once.phase.discard && !s.once.phase.locked)
    && (s.once.Running? && s.once.phase.Holding? && !s.once.phase.discard ==>
          s.fullyRead && !s.interrupted && !s.once.failed)
    && |s.released| == (if s.once.Finished? || At(s, Released) then 1 else 0)
    && (s.released == [false] ==> s.fullyRead && !s.interrupted)
    && (s.once.Running? && s.once.phase.Holding? && s.once.phase.discard ==> s.interrupted)
    && (s.released == [true] ==> s.interrupted)
    && (s.interrupted ==> s.closed && !At(s, Stored) && !(s.once.Running? && s.once.phase.Tried?))
  }

  lemma StepKeeps(s: Body, step: Step)
    requires Inv(s)
    ensures Inv(Next(s, step))
  {
    if step.CallRelease? && s.once.Running? && s.once.phase.Holding? {
      assert s.released == [];
      assert Next(s, step).released[0] == s.once.phase.discard;
    }
  }

  lemma {:induction false} RunKeeps(s: Body, steps: seq<Step>)
    requires Inv(s)
    ensures Inv(Run(s, steps))
  {
    hide Inv, Next;
    if steps != [] {
      RunKeeps(s, steps[..|steps| - 1]);
      StepKeeps(Run(s, steps[..|steps| - 1]), steps[|steps| - 1]);
    }
  }

  /** In every run release is called at most once, and exactly once when a close has returned;
      never while a Read is in flight, nor is one in flight afterwards; and the connection is
      kept exactly if nothing interrupted it, and then a Read has reported the end of its body. */
  lemma ReleasedOnce(empty: bool, steps: seq<Step>)
    ensures var s := Run(Initial(empty), steps);
      && |s.released| <= 1
      && (s.once.Finished? ==> |s.released| == 1)
      && ((s.once.Running? && s.once.phase.Holding?) || s.released != [] ==>
            forall r :: r in s.calls ==> !s.calls[r].InRead?)
      && (s.released == [false] ==> s.fullyRead)
      && (s.released == [false] <==> s.released != [] && !s.interrupted)
  {
    var s := Run(Initial(empty), steps);
    RunKeeps(Initial(empty), steps);
    hide Run;
    KeptOrNot(s);
  }

  lemma KeptOrNot(s: Body)
    requires Inv(s)
    ensures s.released == [false] <==> s.released != [] && !s.interrupted
  {
    if s.released != [] {
      assert s.released == [s.released[0]];
      if s.released[0] { assert s.interrupted; } else { assert !s.interrupted; }
    }
  }

  /** Only a close that decides interrupts, and it does so exactly when it was told of an error, found
      the lock taken, or the end of the body was not reported yet. */
  lemma InterruptsExactly(s: Body, step: Step)
    ensures Next(s, step).interrupted && !s.interrupted <==>
      && step == Decide && !s.interrupted && s.once.Running? && s.once.phase.Tried?
      && (s.once.failed || !s.once.phase.locked || !s.fullyRead)
  {
  }

  /** The end of the body, once a Read has reported it, stays known; nothing else makes it so. */
  lemma EndSticks(s: Body, step: Step)
    ensures Next(s, step).fullyRead <==>
      s.fullyRead || (step.ReadReturn? && step.eof && step.r in s.calls && s.calls[step.r].InRead?)
  {
  }

  /** When a step can be taken. */
  predicate Enabled(s: Body, step: Step) {
    match step
    case StartRead => !s.closed
    case ReadLock(r) => r in s.calls && s.calls[r].Waiting? && s.lock.None?
    case ReadCheck(r) => r in s.calls && s.calls[r].Locked?
    case ReadReturn(r, _) => r in s.calls && s.calls[r].InRead?
    case CloseCall(_) => s.once.NotCalled?
    case StoreClosed => At(s, Begin)
    case TryLock => At(s, Stored)
    case Decide => s.once.Running? && s.once.phase.Tried?
    case WaitLock => s.once.Running? && s.once.phase.Decided? && s.lock.None?
    case CallRelease => s.once.Running? && s.once.phase.Holding?
    case Unlock => At(s, Released)
  }

  lemma EnabledExactly(s: Body, step: Step)
    ensures Next(s, step) != s <==> Enabled(s, step)
  {
  }

  const QuietClose: seq<Step> := [CloseCall(false), StoreClosed, TryLock, Decide, CallRelease, Unlock]

  /** A body that was read to its end, with no Read under way, keeps its connection when it is closed
      without an error. */
  lemma QuietCloseKeeps(s: Body)
    requires s.once.NotCalled? && s.lock.None? && s.fullyRead && !s.interrupted
    ensures var s1 := Run(s, QuietClose);
      s1.once.Finished? && s1.released == s.released + [false] && !s1.interrupted && s1.lock.None?
  {
    var s1 := Next(s, CloseCall(false));
    var s2 := Next(s1, StoreClosed);
    var s3 := Next(s2, TryLock);
    var s4 := Next(s3, Decide);
    var s5 := Next(s4, CallRelease);
    RunSix(s, QuietClose);
    assert s4.once.phase == Holding(false);
  }

  lemma RunSix(s: Body, p: seq<Step>)
    requires |p| == 6
    ensures Run(s, p) == Next(Next(Next(Next(Next(Next(s, p[0]), p[1]), p[2]), p[3]), p[4]), p[5])
  {
    hide Next;
    assert p[..5][..4] == p[..4] && p[..4][..3] == p[..3] && p[..3][..2] == p[..2] && p[..2][..1] == p[..1];
    assert p[..1][..0] == [];
    assert Run(s, p[..1]) == Next(s, p[0]);
    assert Run(s, p[..2]) == Next(Run(s, p[..1]), p[1]);
    assert Run(s, p[..3]) == Next(Run(s, p[..2]), p[2]);
    assert Run(s, p[..4]) == Next(Run(s, p[..3]), p[3]);
    assert Run(s, p[..5]) == Next(Run(s, p[..4]), p[4]);
  }

  /** A close that has to wait for a Read has interrupted it before. */
  lemma InterruptedBeforeWaiting(empty: bool, steps: seq<Step>)
    ensures var s := Run(Initial(empty), steps); s.once.Running? && s.once.phase.Decided? ==> s.interrupted
  {
    RunKeeps(Initial(empty), steps);
    hide Run;
  }

  // ---- RoundTrip

  datatype HandBack = Close | Release

  /** How reading the body ends, if it is read. */
  datatype BodyRead = Taken | Broken | TooLarge

  /** What RoundTrip meets on its way: what succeeds, the request, the answer, whether the
      connection is to be closed in any case, and whether the body is to be streamed. */
  datatype Exchange = Exchange(
    acquired: bool, writeDeadlineOk: bool, writeOk: bool, readDeadlineOk: bool, headerOk: bool, body: BodyRead,
    head: bool, answer: Answer, mustClose: bool, streams: bool)

  /** What it returns: whether to retry and whether it failed, what it has done with the
      connection, whether it left a stream that will, the SkipBody that the Response carries
      afterwards, and whether the answer's body is still on the connection. */
  datatype Trip = Trip(retry: bool, failed: bool, handed: seq<HandBack>, stream: bool, skip: bool, left: bool)

  /** The request was written and an answer is awaited. */
  predicate Reached(x: Exchange) { x.acquired && x.writeDeadlineOk && x.writeOk && x.readDeadlineOk }

  /** `skip` is the SkipBody that the Response carries beforehand. */
  function RoundTrip(x: Exchange, skip: bool): Trip {
    if !x.acquired then Trip(false, true, [], false, skip, false)
    else if !Reached(x) then Trip(true, true, [Close], false, skip, false)
    else
      var now := skip || x.head;
      var skips := Skips(x.head, now, x.answer);
      if !x.headerOk then Trip(true, true, [Close], false, now, true)
      else if !skips && x.streams then Trip(false, false, [], true, now, true)
      else if !skips && !x.body.Taken? then Trip(!x.body.TooLarge?, true, [Close], false, now, true)
      else
        Trip(false, false, [if x.mustClose then Close else Release], false, now, skips && HasBody(x.head, x.answer))
  }

  /** releaseConn, called by the stream; `closes` is resp.ConnectionClose() at that time. */
  function StreamHands(x: Exchange, released: seq<bool>, closes: bool): seq<HandBack> {
    seq(|released|, i requires 0 <= i < |released| => if x.mustClose || released[i] || closes then Close else Release)
  }

  /** Everything that is done with the connection of a request. */
  function Handed(x: Exchange, skip: bool, body: Body, closes: bool): seq<HandBack> {
    var t := RoundTrip(x, skip);
    t.handed + (if t.stream then StreamHands(x, body.released, closes) else [])
  }

  /** Whatever happens to a request, and however its stream is read and closed, the connection
      it acquired is given back at most once, and exactly once if no stream is left open. */
  lemma GivenBackOnce(x: Exchange, skip: bool, empty: bool, steps: seq<Step>, closes: bool)
    ensures var t, s := RoundTrip(x, skip), Run(Initial(empty), steps);
      var handed := Handed(x, skip, s, closes);
      && |handed| <= (if x.acquired then 1 else 0)
      && (x.acquired && (t.stream ==> s.once.Finished?) ==> |handed| == 1)
  {
    ReleasedOnce(empty, steps);
  }

  /** RoundTrip gives a connection to the pool exactly when the answer was read and nobody asked to close
      it; its stream does so exactly when nothing interrupted the body and nobody has asked by then. */
  lemma PooledExactly(x: Exchange, skip: bool, empty: bool, steps: seq<Step>, closes: bool)
    ensures var t, s := RoundTrip(x, skip), Run(Initial(empty), steps);
      && (!t.stream ==> (Handed(x, skip, s, closes) == [Release] <==> !t.failed && !x.mustClose))
      && (t.stream ==>
            (Handed(x, skip, s, closes) == [Release] <==>
               s.released != [] && !s.interrupted && !x.mustClose && !closes))
      && var there := x.acquired && x.writeDeadlineOk && x.writeOk && x.readDeadlineOk && x.headerOk;
      && var looks := !x.head && !skip && !x.answer.bodiless;
      && (t.failed <==> !there || (looks && !x.streams && !x.body.Taken?))
      && (t.stream <==> there && looks && x.streams)
      && (t.retry <==> t.failed && x.acquired && !(there && x.body.TooLarge?))
  {
    ReleasedOnce(empty, steps);
    hide Run;
    var t, s := RoundTrip(x, skip), Run(Initial(empty), steps);
    if t.stream {
      var hands := StreamHands(x, s.released, closes);
      assert Handed(x, skip, s, closes) == hands;
      if s.released != [] { assert hands == [hands[0]] && s.released == [s.released[0]]; }
    } else {
      assert t.handed + [] == t.handed;
      if t.handed != [] { assert t.handed == [t.handed[0]]; }
    }
  }

  /** A connection that goes back to the pool carries unread bytes of a body exactly when the
      request was not HEAD, its Response came with SkipBody set, and the answer has a body. */
  lemma PooledWithBody(x: Exchange, skip: bool, empty: bool, steps: seq<Step>, closes: bool)
    ensures var t, s := RoundTrip(x, skip), Run(Initial(empty), steps);
      Handed(x, skip, s, closes) == [Release] ==>
        ((if t.stream then !s.fullyRead else t.left) <==> skip && HasBody(x.head, x.answer))
  {
    ReleasedOnce(empty, steps);
    hide Run;
    var t, s := RoundTrip(x, skip), Run(Initial(empty), steps);
    var handed := Handed(x, skip, s, closes);
    if handed == [Release] && t.stream {
      assert handed[0] == StreamHands(x, s.released, closes)[0];
      assert s.released == [false];
    } else if handed == [Release] {
      assert t.handed + [] == t.handed && t.handed[0] == Release;
    }
  }

  // ---- one Response for many requests

  /** The SkipBody that the Response carries after the exchanges: do keeps it across Reset. */
  function SkipAfter(skip: bool, xs: seq<Exchange>): bool {
    if xs == [] then skip else RoundTrip(xs[|xs| - 1], SkipAfter(skip, xs[..|xs| - 1])).skip
  }

  /** It is set once it was set, or once a HEAD request has got as far as its answer. */
  lemma {:induction false} SkipSticks(skip: bool, xs: seq<Exchange>)
    ensures SkipAfter(skip, xs) <==> skip || exists j :: 0 <= j < |xs| && xs[j].head && Reached(xs[j])
  {
    if xs != [] {
      var front, last := xs[..|xs| - 1], xs[|xs| - 1];
      SkipSticks(skip, front);
      assert forall j :: 0 <= j < |front| ==> front[j] == xs[j];
      if last.head && Reached(last) { assert xs[|xs| - 1].head; }
    }
  }

  /** Of requests that share a Response, one that is not streamed gives a connection with unread
      bytes to the pool exactly when it gives it to the pool at all, its answer has a body, and
      SkipBody was set at first or an earlier one was a HEAD that got as far as its answer. */
  lemma PooledAfterHead(skip: bool, xs: seq<Exchange>, x: Exchange)
    ensures var t := RoundTrip(x, SkipAfter(skip, xs));
      t.handed == [Release] && t.left <==>
        && HasBody(x.head, x.answer) && (skip || exists j :: 0 <= j < |xs| && xs[j].head && Reached(xs[j]))
        && Reached(x) && x.headerOk && !x.mustClose
  {
    SkipSticks(skip, xs);
    var t := RoundTrip(x, SkipAfter(skip, xs));
    if t.handed == [Release] { assert t.handed[0] == Release; }
  }

  /** HEAD and then GET with one Response: the body that answers the GET is left on a connection
      that goes to the pool. */
  lemma HeadThenGet()
    ensures var head := Exchange(true, true, true, true, true, Taken, true, Answer(false, false), false, false);
      var get := Exchange(true, true, true, true, true, Taken, false, Answer(false, true), false, false);
      var t := RoundTrip(get, SkipAfter(false, [head]));
      t.handed == [Release] && t.left
  {
    var head := Exchange(true, true, true, true, true, Taken, true, Answer(false, false), false, false);
    assert [head][..0] == [] && SkipAfter(false, []) == false;
    assert SkipAfter(false, [head]);
  }
}
