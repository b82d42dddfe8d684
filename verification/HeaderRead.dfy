/** Reading a whole request header: the start line, the fields, and the retry loop that parses
    again from the start each time more bytes have arrived (fasthttp/header.go:54-67,
    2830-2906, 3287-3307). What the fields mean is left to the callers: `first` reads the start
    line, `add` takes one field and `check` accepts the whole. */
module HeaderReads {
  import opened Common
  import opened Swar
  import opened HeaderBlock
  import opened HeaderScanners

  datatype ParseError<+E> = Malformed(scan: ScanError) | Rejected(why: E)

  /** Wait: ErrNeedMore. Done: the header and its length. */
  datatype Parsed<+S, +E> = Wait | Fail(error: ParseError<E>) | Done(state: S, n: nat)

  // ---- the block, on bytes that never change

  function Fields<S, E>(b: seq<byte>, r: nat, started: bool, st: S, add: (S, Field) -> Result<S, E>): (p: Parsed<S, E>)
    requires r <= |b| && (!started ==> r == 0)
    ensures p.Done? ==> 0 < p.n <= |b|
    ensures p.Done? ==> Complete(b) || (|b| >= 2 && b[0] == CR && b[1] == LF)
    decreases |b| - r, !started
  {
    match if started then NextAt(b, r) else StartAt(b)
    case More => Wait
    case Failed(e) => Fail(Malformed(e))
    case End(n) => Done(st, n)
    case Got(f, _, n) =>
      match add(st, f)
      case Err(e) => Fail(Rejected(e))
      case Ok(st1) => Fields(b, n, true, st1, add)
  }

  lemma {:induction false} FieldsStable<S, E>(
      b: seq<byte>, x: seq<byte>, r: nat, started: bool, st: S, add: (S, Field) -> Result<S, E>)
    requires r <= |b| && (!started ==> r == 0) && Fields(b, r, started, st, add) != Wait
    ensures Fields(b + x, r, started, st, add) == Fields(b, r, started, st, add)
    decreases |b| - r, !started
  {
    hide NextAt, StartAt, Complete;
    if started { NextStable(b, x, r); } else { StartStable(b, x); }
    var n := if started then NextAt(b, r) else StartAt(b);
    if n.Got? && add(st, n.field).Ok? { FieldsStable(b, x, n.r, true, add(st, n.field).value, add); }
  }

  /** parseHeaders on the block in b. The outcome is that of the bytes as they came; an attempt
      that has to wait has not changed them, and neither has any attempt changed a byte behind
      the block; raw is the block exactly as it came. */
  method ParseHeaders<S, E>(b: array<byte>, st: S, add: (S, Field) -> Result<S, E>)
    returns (p: Parsed<S, E>, raw: seq<byte>)
    modifies b
    ensures p == Fields(old(b[..]), 0, false, st, add)
    ensures p.Wait? ==> b[..] == old(b[..])
    ensures p.Done? ==> p.n <= b.Length && b[p.n..] == old(b[p.n..])
    ensures p.Done? ==> raw == if p.n > 2 then old(b[..p.n]) else []
  {
    hide NextAt, StartAt, Complete, InBlock, TermAt, Blank;
    var s := new HeaderScanner(b, true);
    var cur := st;
    ghost var wire := b[..];
    while true
      invariant s.b == b && s.wire == wire && fresh(s) && s.keepRaw && s.Ready() && s.err == NoErr
      invariant Fields(wire, s.r, s.initialized, cur, add) == Fields(wire, 0, false, st, add)
      decreases b.Length - s.r, !s.initialized
    {
      ghost var r0, was := s.r, s.initialized;
      ghost var n := if was then NextAt(wire, r0) else StartAt(wire);
      if n == More { Undecided(s); }
      var more := s.Next();
      if !more {
        raw := [];
        match s.err {
          case NeedMore => return Wait, raw;
          case Bad(e) => return Fail(Malformed(e)), raw;
          case NoErr =>
            if s.r > 2 { raw := s.raw + b[s.rawSaved..s.r]; }
            return Done(cur, s.r), raw;
        }
      }
      var f := Field(b[s.keyFrom..s.keyTo], b[s.valueFrom..s.valueTo], s.keyHasSpace, s.valueValid);
      match add(cur, f) {
        case Err(e) => return Fail(Rejected(e)), [];
        case Ok(next) => cur := next;
      }
    }
  }

  /** Once a join has written to the buffer, the scanner never asks for more bytes. */
  lemma Undecided(s: HeaderScanner)
    requires s.Ready() && (if s.initialized then NextAt(s.wire, s.r) else StartAt(s.wire)) == More
    ensures s.b[..] == s.wire
  {
    if s.touched > 0 {
      InBlockAt(s.wire, s.r, s.blockEnd - 4);
      NextInBlock(s.wire, s.blockEnd - 4, s.r);
    }
  }

  // ---- the start line in front of the block

  datatype Line = Line(text: seq<byte>, n: nat)

  /** The first line from i on that is not empty, and where the next one starts. */
  function LineAt(b: seq<byte>, i: nat): (l: Option<Line>)
    requires i <= |b|
    ensures l.Some? ==> i < l.value.n <= |b|
    decreases |b| - i
  {
    var lf := First(b, i, IsLF);
    if lf == |b| then None
    else if Text(b, i, lf) == [] then LineAt(b, lf + 1)
    else Some(Line(Text(b, i, lf), lf + 1))
  }

  lemma {:induction false} LineStable(b: seq<byte>, x: seq<byte>, i: nat)
    requires i <= |b| && LineAt(b, i).Some?
    ensures LineAt(b + x, i) == LineAt(b, i)
    decreases |b| - i
  {
    hide First, Text;
    var lf := First(b, i, IsLF);
    FirstStable(b, x, i, IsLF);
    TextStable(b, x, i, lf);
    if Text(b, i, lf) == [] { LineStable(b, x, lf + 1); }
  }

  /** How a request reads its header. */
  datatype Reader<!S, !E> = Reader(
      first: seq<byte> -> Result<S, E>, add: (S, Field) -> Result<S, E>, check: S -> Option<E>)

  /** The end of tryRead: validate. */
  function Checked<S, E>(p: Parsed<S, E>, check: S -> Option<E>, m: nat): Parsed<S, E> {
    match p
    case Wait => Wait
    case Fail(e) => Fail(e)
    case Done(st, n) => if check(st).Some? then Fail(Rejected(check(st).value)) else Done(st, m + n)
  }

  /** The whole header in buf. */
  function Parse<S, E>(buf: seq<byte>, rd: Reader<S, E>): (p: Parsed<S, E>)
    ensures p.Done? ==> 0 < p.n <= |buf|
  {
    match LineAt(buf, 0)
    case None => Wait
    case Some(l) =>
      match rd.first(l.text)
      case Err(e) => Fail(Rejected(e))
      case Ok(st) => Checked(Fields(buf[l.n..], 0, false, st, rd.add), rd.check, l.n)
  }

  /** Any outcome but Wait is the same whatever bytes follow. */
  lemma ParseStable<S, E>(buf: seq<byte>, x: seq<byte>, rd: Reader<S, E>)
    requires Parse(buf, rd) != Wait
    ensures Parse(buf + x, rd) == Parse(buf, rd)
  {
    hide LineAt, Fields;
    LineStable(buf, x, 0);
    var l := LineAt(buf, 0).value;
    if rd.first(l.text).Ok? {
      assert (buf + x)[l.n..] == buf[l.n..] + x;
      FieldsStable(buf[l.n..], x, 0, false, rd.first(l.text).value, rd.add);
    }
  }

  /** What the header check refuses is refused, and nothing else changes. */
  lemma CheckedExactly<S, E>(p: Parsed<S, E>, check: S -> Option<E>, m: nat)
    ensures p.Done? && check(p.state).None? ==> Checked(p, check, m) == Done(p.state, m + p.n)
    ensures p.Done? && check(p.state).Some? ==> Checked(p, check, m) == Fail(Rejected(check(p.state).value))
    ensures !p.Done? ==> Checked(p, check, m) == p
  {
  }

  /** A line that fails ends the block with its error, and one that is not complete makes it wait. */
  lemma LineEnds<S, E>(b: seq<byte>, r: nat, st: S, add: (S, Field) -> Result<S, E>)
    requires r <= |b|
    ensures NextAt(b, r).Failed? ==> Fields(b, r, true, st, add) == Fail(Malformed(NextAt(b, r).err))
    ensures NextAt(b, r).More? ==> Fields(b, r, true, st, add) == Wait
    ensures NextAt(b, r).End? ==> Fields(b, r, true, st, add) == Done(st, NextAt(b, r).r)
  {
    hide NextAt;
  }

  /** A header that parses has its terminator, unless its block is empty. */
  lemma DoneIsTerminated<S, E>(buf: seq<byte>, rd: Reader<S, E>)
    requires Parse(buf, rd).Done?
    ensures Complete(buf) || EmptyBlock(buf[LineAt(buf, 0).value.n..])
  {
    hide LineAt, Fields, Complete;
    var m := LineAt(buf, 0).value.n;
    if Complete(buf[m..]) { CompleteLater(buf, m); }
  }

  lemma CompleteLater(buf: seq<byte>, m: nat)
    requires m <= |buf| && Complete(buf[m..])
    ensures Complete(buf)
  {
    var e :| 0 <= e < |buf[m..]| && TermAt(buf[m..], e);
    assert TermAt(buf, m + e);
  }

  predicate EmptyBlock(b: seq<byte>) { |b| >= 2 && b[0] == CR && b[1] == LF }

  /** blockTerminated: what earlier calls have searched is not searched again. */
  method BlockTerminated(b: seq<byte>, searched: nat) returns (found: bool, next: nat)
    requires searched <= |b| && !Complete(b[..searched])
    ensures found == Complete(b) && next == if found then searched else |b|
  {
    var start := if searched >= 3 then searched - 3 else 0;
    ghost var e := FindTerm(b[start..], 0);
    found := FindTerm(b[start..], 0) < |b| - start;
    if found {
      assert TermAt(b, start + e);
      return true, searched;
    }
    forall e: nat ensures !TermAt(b, e) {
      if e < start { NotEarlier(b, searched, e); } else { NotLater(b, start, e); }
    }
    return false, |b|;
  }

  lemma NotEarlier(b: seq<byte>, searched: nat, e: nat)
    requires e + 4 <= searched <= |b| && !Complete(b[..searched])
    ensures !TermAt(b, e)
  {
    assert TermAt(b[..searched], e) == TermAt(b, e);
  }

  lemma NotLater(b: seq<byte>, start: nat, e: nat)
    requires start <= e && start <= |b| && FindTerm(b[start..], 0) == |b| - start
    ensures !TermAt(b, e)
  {
    if TermAt(b, e) { assert TermAt(b[start..], e - start); }
  }

  /** The block is rewritten where it lies in the buffer. */
  method ParseBlock<S, E>(bytes: seq<byte>, st: S, add: (S, Field) -> Result<S, E>)
    returns (q: Parsed<S, E>, after: seq<byte>)
    ensures q == Fields(bytes, 0, false, st, add) && |after| == |bytes|
    ensures q.Wait? ==> after == bytes
    ensures q.Done? ==> after[q.n..] == bytes[q.n..]
  {
    hide Fields;
    var block := new byte[|bytes|](i requires 0 <= i < |bytes| => bytes[i]);
    assert block[..] == bytes;
    var raw;
    q, raw := ParseHeaders(block, st, add);
    after := block[..];
    if q.Done? { assert after[q.n..] == block[q.n..]; }
  }

  /** parse, and the header check, on the buffered bytes. A join inside the block changes them. */
  method ParseBuffer<S, E>(buf: seq<byte>, rd: Reader<S, E>) returns (p: Parsed<S, E>, after: seq<byte>)
    ensures p == Parse(buf, rd) && |after| == |buf|
    ensures p.Wait? ==> after == buf
    ensures p.Done? ==> after[p.n..] == buf[p.n..]
  {
    hide LineAt, Fields;
    var line := LineAt(buf, 0);
    if line.None? { return Wait, buf; }
    var m := line.value.n;
    match rd.first(line.value.text) {
      case Err(e) => return Fail(Rejected(e)), buf;
      case Ok(st) =>
        var q, block := ParseBlock(buf[m..], st, rd.add);
        p := Checked(q, rd.check, m);
        after := buf[..m] + block;
        if p.Done? { SameTail(buf, m, block, q.n); }
    }
  }

  lemma SameTail(buf: seq<byte>, m: nat, block: seq<byte>, n: nat)
    requires m <= |buf| && |block| == |buf| - m && n <= |block| && block[n..] == buf[m..][n..]
    ensures (buf[..m] + block)[m + n..] == buf[m + n..]
  {
    assert (buf[..m] + block)[m + n..] == block[n..];
  }

  function Concat(chunks: seq<seq<byte>>): seq<byte> {
    if chunks == [] then [] else Concat(chunks[..|chunks| - 1]) + chunks[|chunks| - 1]
  }

  lemma ConcatNext(chunks: seq<seq<byte>>, k: nat)
    requires k < |chunks|
    ensures Concat(chunks[..k + 1]) == Concat(chunks[..k]) + chunks[k]
  {
    assert chunks[..k + 1][..k] == chunks[..k];
  }

  lemma {:induction false} ConcatPrefix(chunks: seq<seq<byte>>, k: nat)
    requires k <= |chunks|
    ensures Concat(chunks[..k]) <= Concat(chunks)
    decreases |chunks| - k
  {
    if k == |chunks| {
      assert chunks[..k] == chunks;
    } else {
      ConcatNext(chunks, k);
      ConcatPrefix(chunks, k + 1);
    }
  }

  /** A retry without the terminator: the start line is still checked, and an empty block is
      complete at its CRLF; otherwise the block has to wait. */
  method CheckStartLine<S, E>(buf: seq<byte>, rd: Reader<S, E>) returns (p: Parsed<S, E>, goOn: bool)
    requires !Complete(buf)
    ensures p != Wait ==> p == Parse(buf, rd) && p.Fail?
    ensures !goOn && p == Wait ==> !Parse(buf, rd).Done?
  {
    hide LineAt, Fields, Complete;
    var line := LineAt(buf, 0);
    if line.None? { return Wait, false; }
    var st := rd.first(line.value.text);
    if st.Err? { return Fail(Rejected(st.error)), false; }
    goOn := EmptyBlock(buf[line.value.n..]);
    if !goOn && Parse(buf, rd).Done? { DoneIsTerminated(buf, rd); }
    p := Wait;
  }

  /** tryRead with buf buffered, where `retry` tells whether bytes were there before. */
  method TryRead<S, E>(buf: seq<byte>, retry: bool, searched: nat, rd: Reader<S, E>)
    returns (p: Parsed<S, E>, left: seq<byte>, next: nat)
    requires searched <= |buf| && !Complete(buf[..searched])
    ensures p != Wait ==> p == Parse(buf, rd)
    ensures Parse(buf, rd).Done? || Complete(buf) ==> p == Parse(buf, rd)
    ensures p.Done? ==> left == buf[p.n..]
    ensures p == Wait ==> left == buf
    ensures next <= |buf| && !Complete(buf[..next])
  {
    hide Parse, Complete;
    next := searched;
    if retry {
      var found, goOn;
      found, next := BlockTerminated(buf, searched);
      assert buf[..|buf|] == buf;
      if !found {
        p, goOn := CheckStartLine(buf, rd);
        if !goOn || p != Wait { return p, if p == Wait then buf else [], next; }
      }
    }
    var after;
    p, after := ParseBuffer(buf, rd);
    left := if p.Done? then after[p.n..] else after;
  }

  /** readLoop over the bytes as they arrive, one chunk for each attempt. Whatever the chunks,
      an outcome is that of all bytes together; a header that parses is always found, as is any
      outcome once the terminator has arrived; and the bytes left for the body are those of the
      wire. */
  method ReadLoop<S, E>(chunks: seq<seq<byte>>, rd: Reader<S, E>) returns (p: Parsed<S, E>, left: seq<byte>)
    ensures p != Wait ==> p == Parse(Concat(chunks), rd)
    ensures Parse(Concat(chunks), rd).Done? || Complete(Concat(chunks)) ==> p == Parse(Concat(chunks), rd)
    ensures p.Done? ==> p.n <= |Concat(chunks)| && left <= Concat(chunks)[p.n..]
  {
    hide Parse, Complete, Concat;
    var buf: seq<byte>, searched: nat, k := [], 0, 0;
    Nothing(rd);
    assert chunks[..0] == [];
    while k < |chunks|
      invariant 0 <= k <= |chunks| && buf == Concat(chunks[..k]) && searched <= |buf|
      invariant !Complete(buf[..searched])
      invariant Parse(buf, rd).Done? || Complete(buf) ==> Parse(buf, rd) == Wait
    {
      ConcatNext(chunks, k);
      ConcatPrefix(chunks, k + 1);
      ghost var was := buf;
      var retry := |buf| > 0;
      buf := buf + chunks[k];
      assert buf[..searched] == was[..searched];
      k := k + 1;
      p, left, searched := TryRead(buf, retry, searched, rd);
      if p != Wait {
        ghost var rest := Concat(chunks)[|buf|..];
        assert Concat(chunks) == buf + rest;
        ParseStable(buf, rest, rd);
        if p.Done? { assert Concat(chunks)[p.n..] == buf[p.n..] + rest; }
        return;
      }
      buf := left;
    }
    assert chunks[..|chunks|] == chunks;
    return Wait, [];
  }

  lemma Nothing<S, E>(rd: Reader<S, E>)
    ensures Parse([], rd) == Wait && !Complete([]) && Concat([]) == []
  {
  }
}
