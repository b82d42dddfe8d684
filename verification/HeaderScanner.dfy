/** The header scanner (fasthttp/headerscanner.go). It reads fields out of its buffer and joins
    folded lines inside it; what it returns is what HeaderBlock says of the bytes as they came
    from the wire. */
module HeaderScanners {
  import opened Common
  import opened Swar
  import opened HeaderBlock

  /** The line feed that ends a value, or -1, and whether the bytes before it are all valid. */
  method ScanValueLine(b: array<byte>, start: nat) returns (lf: int, valid: bool)
    requires start <= b.Length
    ensures lf == -1 <==> First(b[..], start, IsLF) == b.Length
    ensures lf != -1 ==> lf == First(b[..], start, IsLF) && valid == AllValue(Text(b[..], start, lf))
  {
    hide *;
    ghost var s := b[..];
    CleanStart(s, start);
    valid := true;
    var i := start;
    while i + 8 <= b.Length
      invariant start <= i <= b.Length
      invariant Clean(s, start, i) && valid == ValueRange(s, start, i)
    {
      var w := LoadWord(b[i..i + 8]);
      AnyByteIsCTLExact(b[i..i + 8]);
      if !AnyByteIsCTL(w) {
        CleanWord(s, start, i);
        i := i + 8;
        continue;
      }
      var j := i;
      while j < i + 8
        invariant i <= j <= i + 8 <= b.Length
        invariant Clean(s, start, j) && valid == ValueRange(s, start, j)
      {
        var c := b[j];
        if c == LF {
          LineEnds(s, start, j);
          return j, valid;
        }
        CleanByte(s, start, j);
        if c == CR {
          if j + 1 < b.Length && b[j + 1] == LF {
            LineEndsCR(s, start, j);
            return j + 1, valid;
          }
          valid := false;
        } else if !ValueByte(c) {
          valid := false;
        }
        j := j + 1;
      }
      i := j;
    }
    while i < b.Length
      invariant start <= i <= b.Length
      invariant Clean(s, start, i) && valid == ValueRange(s, start, i)
    {
      var c := b[i];
      if c == LF {
        LineEnds(s, start, i);
        return i, valid;
      }
      CleanByte(s, start, i);
      if c == CR {
        if i + 1 < b.Length && b[i + 1] == LF {
          LineEndsCR(s, start, i);
          return i + 1, valid;
        }
        valid := false;
      } else if !ValueByte(c) {
        valid := false;
      }
      i := i + 1;
    }
    NoLineEnd(s, start);
    lf := -1;
  }

  /** No line has ended between start and i. */
  ghost predicate Clean(s: seq<byte>, start: nat, i: nat) {
    start <= i <= |s| && (forall k :: start <= k < i ==> s[k] != LF) &&
    (i < |s| && s[i] == LF && i > start ==> s[i - 1] != CR)
  }

  ghost predicate ValueRange(s: seq<byte>, start: nat, i: nat)
    requires start <= i <= |s|
  {
    AllValue(s[start..i])
  }

  lemma CleanStart(s: seq<byte>, start: nat)
    requires start <= |s|
    ensures Clean(s, start, start) && ValueRange(s, start, start)
  {
  }

  lemma AllValueConcat(a: seq<byte>, b: seq<byte>)
    ensures AllValue(a + b) == (AllValue(a) && AllValue(b))
  {
    if AllValue(a + b) {
      forall i | 0 <= i < |a| ensures ValueByte(a[i]) { assert (a + b)[i] == a[i]; }
      forall i | 0 <= i < |b| ensures ValueByte(b[i]) { assert (a + b)[|a| + i] == b[i]; }
    }
  }

  lemma LineEnds(s: seq<byte>, start: nat, j: nat)
    requires Clean(s, start, j) && j < |s| && s[j] == LF
    ensures First(s, start, IsLF) == j && Text(s, start, j) == s[start..j]
    ensures ValueRange(s, start, j) == AllValue(Text(s, start, j))
  {
    FirstIs(s, start, IsLF, j);
  }

  lemma LineEndsCR(s: seq<byte>, start: nat, j: nat)
    requires Clean(s, start, j) && j + 1 < |s| && s[j] == CR && s[j + 1] == LF
    ensures First(s, start, IsLF) == j + 1 && ValueRange(s, start, j) == AllValue(Text(s, start, j + 1))
  {
    FirstIs(s, start, IsLF, j + 1);
  }

  lemma NoLineEnd(s: seq<byte>, start: nat)
    requires Clean(s, start, |s|)
    ensures First(s, start, IsLF) == |s|
  {
  }

  lemma CleanByte(s: seq<byte>, start: nat, j: nat)
    requires Clean(s, start, j) && j < |s| && s[j] != LF
    ensures Clean(s, start, j + 1) || (s[j] == CR && j + 1 < |s| && s[j + 1] == LF)
    ensures ValueRange(s, start, j + 1) == (ValueRange(s, start, j) && ValueByte(s[j]))
    ensures s[j] == CR ==> !ValueByte(s[j])
  {
    assert s[start..j + 1] == s[start..j] + [s[j]];
    AllValueConcat(s[start..j], [s[j]]);
  }

  lemma CleanWord(s: seq<byte>, start: nat, i: nat)
    requires Clean(s, start, i) && i + 8 <= |s| && !AnyByteIsCTL(LoadWord(s[i..i + 8]))
    ensures Clean(s, start, i + 8) && ValueRange(s, start, i + 8) == ValueRange(s, start, i)
  {
    hide AnyByteIsCTL, LoadWord;
    AnyByteIsCTLExact(s[i..i + 8]);
    forall k | i <= k < i + 8 ensures !IsCTL(s[k]) { assert s[i..i + 8][k - i] == s[k]; }
    assert s[start..i + 8] == s[start..i] + s[i..i + 8];
    AllValueConcat(s[start..i], s[i..i + 8]);
  }

  // ---- pieces of a line

  lemma FirstSame(s: seq<byte>, t: seq<byte>, i: nat, p: byte -> bool)
    requires |s| == |t| && i <= |s| && forall k :: i <= k < |s| ==> s[k] == t[k]
    ensures First(s, i, p) == First(t, i, p)
  {
    hide First;
  }

  lemma TextSame(s: seq<byte>, t: seq<byte>, i: nat, lf: nat)
    requires |s| == |t| && i <= lf <= |s| && forall k :: i <= k < |s| ==> s[k] == t[k]
    ensures Text(s, i, lf) == Text(t, i, lf)
  {
    assert s[i..lf] == t[i..lf];
    if lf > i { assert s[i..lf - 1] == t[i..lf - 1]; }
  }

  lemma TrimRightLast(s: seq<byte>, c: byte)
    ensures TrimRight(s + [c]) == if Blank(c) then TrimRight(s) else s + [c]
  {
    assert (s + [c])[..|s|] == s;
  }

  lemma {:induction false} TrimRightPrefix(s: seq<byte>)
    ensures TrimRight(s) <= s
    decreases |s|
  {
    if s != [] && Blank(s[|s| - 1]) { TrimRightPrefix(s[..|s| - 1]); }
  }

  /** The end of the key that starts at r, and whether a space inside it survives trimming. */
  method ScanKey(b: array<byte>, r: nat) returns (i: nat, inner: bool)
    requires r <= b.Length
    ensures i == First(b[..], r, EndsKey) && inner == InnerSpace(b[r..i])
  {
    hide First, FieldByte, TrimRight;
    ghost var s := b[..];
    i := r;
    var seenSpace := false;
    inner := false;
    TrimRightPrefix([]);
    while i < b.Length
      invariant r <= i <= b.Length
      invariant forall k :: r <= k < i ==> !EndsKey(s[k])
      invariant seenSpace == (SP in s[r..i]) && inner == InnerSpace(s[r..i])
    {
      var c := b[i];
      if EndsKey(c) { break; }
      KeyByte(s[r..i], c);
      assert s[r..i + 1] == s[r..i] + [c];
      if c != SP {
        if seenSpace { inner := true; }
      } else {
        seenSpace := true;
      }
      i := i + 1;
    }
    assert s[r..i] == b[r..i];
  }

  lemma KeyByte(s: seq<byte>, c: byte)
    requires !EndsKey(c)
    ensures InnerSpace(s + [c]) == if c == SP then InnerSpace(s) else SP in s
    ensures InnerSpace(s) ==> SP in s
  {
    TrimRightLast(s, c);
    TrimRightPrefix(s);
  }

  /** The index after the last byte of from..to that is neither space nor tab. */
  method TrimEnd(b: array<byte>, from: nat, to: nat) returns (e: nat)
    requires from <= to <= b.Length
    ensures from <= e <= to && b[from..e] == TrimRight(b[from..to])
  {
    e := to;
    while e > from && Blank(b[e - 1])
      invariant from <= e <= to && TrimRight(b[from..e]) == TrimRight(b[from..to])
    {
      assert b[from..e] == b[from..e - 1] + [b[e - 1]];
      TrimRightLast(b[from..e - 1], b[e - 1]);
      e := e - 1;
    }
  }

  /** scanHeaderKey on the line from..to. */
  method ScanHeaderKey(b: array<byte>, from: nat, to: nat) returns (colon: int, inner: bool, valid: bool)
    requires from <= to <= b.Length
    ensures var line := b[from..to]; var c := First(line, 0, EndsKey);
      && valid == (0 < c < |line| && line[c] == COLON)
      && (valid ==> colon == c && inner == InnerSpace(line[..c]))
      && (!valid ==> colon == if First(line, 0, IsColon) < |line| then First(line, 0, IsColon) else -1)
  {
    hide First, TrimRight, FieldByte, InnerSpace;
    ghost var line := b[from..to];
    var i := from;
    while i < to
      invariant from <= i <= to
      invariant forall k :: 0 <= k < i - from ==> !EndsKey(line[k])
    {
      var c := b[i];
      assert c == line[i - from];
      if c == COLON {
        ColonEnds();
        FirstIs(line, 0, EndsKey, i - from);
        if i == from {
          FirstIs(line, 0, IsColon, 0);
          return 0, false, false;
        }
        inner := KeyInner(b, from, i);
        assert b[from..i] == line[..i - from];
        return i - from, inner, true;
      }
      if EndsKey(c) {
        FirstIs(line, 0, EndsKey, i - from);
        var k := First(b[from..to], 0, IsColon);
        return if k < to - from then k else -1, false, false;
      }
      i := i + 1;
    }
    NoColon(line);
    return -1, false, false;
  }

  lemma ColonEnds()
    ensures EndsKey(COLON)
  {
  }

  lemma NoColon(line: seq<byte>)
    requires forall k :: 0 <= k < |line| ==> !EndsKey(line[k])
    ensures First(line, 0, IsColon) == |line| && First(line, 0, EndsKey) == |line|
  {
    ColonEnds();
  }

  /** Whether the first space of a key comes before its trailing spaces. */
  method KeyInner(b: array<byte>, from: nat, to: nat) returns (inner: bool)
    requires from <= to <= b.Length
    ensures inner == InnerSpace(b[from..to])
  {
    var e := TrimEnd(b, from, to);
    inner := SP in b[from..e];
  }

  /** The first CRLFCRLF from i on, or the length. */
  function FindTerm(b: seq<byte>, i: nat): (e: nat)
    requires i <= |b|
    ensures i <= e <= |b| && (e < |b| ==> TermAt(b, e))
    ensures forall k :: i <= k < e ==> !TermAt(b, k)
    decreases |b| - i
  {
    if i == |b| || TermAt(b, i) then i else FindTerm(b, i + 1)
  }

  lemma TermFound(b: seq<byte>)
    ensures Complete(b) <==> FindTerm(b, 0) < |b|
  {
  }

  /** r is not past the blank line that ends the block. */
  ghost predicate InBlock(b: seq<byte>, r: nat) { forall e: nat :: TermAt(b, e) ==> r <= e + 2 }

  lemma InBlockAt(b: seq<byte>, r: nat, e: nat)
    requires InBlock(b, r) && TermAt(b, e)
    ensures r <= e + 2
  {
  }

  datatype Err = NoErr | NeedMore | Bad(e: ScanError)

  class HeaderScanner {
    const b: array<byte>
    /** Whether the wire bytes are kept in raw. */
    const keepRaw: bool
    /** What b held at the start, and the end of the part that joins have written to. */
    ghost const wire: seq<byte>
    ghost var touched: nat

    var initialized: bool
    var r: nat
    var keyFrom: nat
    var keyTo: nat
    var valueFrom: nat
    var valueTo: nat
    var keyHasSpace: bool
    var valueValid: bool
    var raw: seq<byte>
    var rawSaved: nat
    var blockEnd: nat
    var err: Err

    /** Bytes from the read position on are as they came; what was overwritten is in raw; and
        nothing is overwritten before the block is known to be complete. */
    ghost predicate Kept()
      reads this, b
    {
      && |wire| == b.Length && touched <= r <= b.Length
      && (forall k :: touched <= k < b.Length ==> b[k] == wire[k])
      && rawSaved <= r && raw == wire[..rawSaved]
      && (if keepRaw then touched <= rawSaved else rawSaved == 0)
      && (blockEnd != 0 ==> blockEnd >= 4 && TermAt(wire, blockEnd - 4))
      && (touched > 0 ==> blockEnd != 0)
    }

    /** At a line start, not past the blank line of the block. */
    ghost predicate Ready()
      reads this, b
    {
      && Kept()
      && InBlock(wire, r)
      && (initialized && r < b.Length ==> !Blank(wire[r]))
      && (!initialized ==> r == 0 && touched == 0)
    }

    constructor (buf: array<byte>, raws: bool)
      ensures b == buf && keepRaw == raws && wire == buf[..] && touched == 0 && Ready() && !initialized && err == NoErr
    {
      b, keepRaw, wire := buf, raws, buf[..];
      touched, initialized, r := 0, false, 0;
      keyFrom, keyTo, valueFrom, valueTo := 0, 0, 0, 0;
      keyHasSpace, valueValid, raw, rawSaved, blockEnd, err := false, false, [], 0, 0, NoErr;
    }

    /** What a call of next has to leave behind. */
    ghost predicate Returned(n: Scan, more: bool)
      reads this, b
    {
      match n
      case More => !more && err == NeedMore
      case Failed(e) => !more && err == Bad(e)
      case End(x) => !more && err == NoErr && r == x
      case Got(f, _, x) =>
        && more && err == NoErr && r == x
        && keyFrom <= keyTo <= b.Length && valueFrom <= valueTo <= b.Length
        && b[keyFrom..keyTo] == f.key && b[valueFrom..valueTo] == f.value
        && keyHasSpace == f.keyHasSpace && valueValid == f.valueValid
    }

    method BlockComplete() returns (ok: bool)
      requires Kept()
      modifies this`blockEnd
      ensures Kept() && ok == Complete(wire) && (ok ==> blockEnd != 0)
    {
      if blockEnd != 0 {
        assert TermAt(wire, blockEnd - 4);
        return true;
      }
      assert b[..] == wire;
      TermFound(wire);
      var i := FindTerm(b[..], 0);
      if i == b.Length { return false; }
      blockEnd := i + 4;
      return true;
    }

    method SecureRaw()
      requires Kept()
      modifies this`raw, this`rawSaved
      ensures Kept() && (keepRaw ==> rawSaved == r)
    {
      if keepRaw {
        assert b[rawSaved..r] == wire[rawSaved..r];
        assert wire[..rawSaved] + wire[rawSaved..r] == wire[..r];
        raw := raw + b[rawSaved..r];
        rawSaved := r;
      }
    }

    method SkipSpace() returns (skipped: bool, ok: bool)
      requires Kept()
      modifies this`r
      ensures Kept() && r == First(wire, old(r), NotBlank) && ok == (r < b.Length)
      ensures ok ==> skipped == (r > old(r))
    {
      hide First;
      skipped := false;
      while true
        invariant Kept() && old(r) <= r && skipped == (r > old(r))
        invariant forall k :: old(r) <= k < r ==> !NotBlank(wire[k])
        decreases b.Length - r
      {
        if r >= b.Length { return false, false; }
        var c := b[r];
        if !Blank(c) { FirstIs(wire, old(r), NotBlank, r); return skipped, true; }
        r := r + 1;
        skipped := true;
      }
    }

    /** The line at r without its end; ok is false when there is no line feed yet. */
    method ReadLine() returns (from: nat, to: nat, ok: bool)
      requires Kept()
      modifies this`r
      ensures Kept() && from == old(r)
      ensures var lf := First(wire, old(r), IsLF);
        ok == (lf < b.Length) && (ok ==> r == lf + 1 && from <= to <= lf && b[from..to] == Text(wire, from, lf))
    {
      hide First;
      FirstSame(b[..], wire, r, IsLF);
      var i := First(b[..], r, IsLF);
      if i == b.Length { return r, r, false; }
      TextSame(b[..], wire, r, i);
      from := r;
      to := if i > from && b[i - 1] == CR then i - 1 else i;
      r := i + 1;
      return from, to, true;
    }
  
    /** mline = append(mline, ' ', line...), inside b, where mline ends at m. */
    method AppendText(m: nat, from: nat, to: nat) returns (end: nat)
      requires Kept() && blockEnd != 0 && m < from <= to <= r && (keepRaw ==> rawSaved == r)
      modifies b, this`touched
      ensures Kept() && end == m + 1 + (to - from) <= to
      ensures b[..end] == old(b[..m]) + ([SP] + old(b[from..to]))
    {
      end := m + 1 + (to - from);
      CopyDown(b, m, from, to);
      if touched < end { touched := end; }
    }

    /** The next continuation line, trimmed; skipped is false when there is none. */
    method ReadContinuation() returns (skipped: bool, from: nat, to: nat)
      requires Kept() && blockEnd != 0 && r <= blockEnd - 2 && (keepRaw ==> rawSaved == r)
      modifies this`r, this`raw, this`rawSaved
      ensures Kept() && r <= blockEnd - 2 && (keepRaw ==> rawSaved == r)
      ensures FoldTail(wire, old(r)).Some? && FoldTail(wire, r).Some?
      ensures !skipped ==> r == old(r) && FoldTail(wire, r).value == Joined([], r) && !Blank(wire[r])
      ensures skipped ==> old(r) < from <= to < r
      ensures skipped ==>
        FoldTail(wire, old(r)).value ==
        Joined([SP] + b[from..to] + FoldTail(wire, r).value.text, FoldTail(wire, r).value.r)
    {
      hide FoldTail, First, Text, TrimRight, TermAt, Blank, NotBlank, IsLF;
      FoldCases(wire, blockEnd - 4, r);
      var ok;
      skipped, ok := SkipSpace();
      assert ok;
      if !skipped { return false, r, r; }
      from, to, ok := ReadLine();
      assert ok;
      SecureRaw();
      to := TrimEnd(b, from, to);
    }

    /** One turn of the loop that joins continuation lines: the line at r goes behind m. */
    method JoinOne(m: nat) returns (joined: bool, end: nat, ghost text: seq<byte>)
      requires Kept() && blockEnd != 0 && m < r <= blockEnd - 2 && (keepRaw ==> rawSaved == r)
      modifies b, this`touched, this`r, this`raw, this`rawSaved
      ensures Kept() && m <= end < r <= blockEnd - 2 && old(r) <= r && (keepRaw ==> rawSaved == r)
      ensures FoldTail(wire, old(r)).Some? && FoldTail(wire, r).Some?
      ensures b[..end] == old(b[..m]) + text
      ensures joined == (r > old(r))
      ensures FoldTail(wire, old(r)).value == Joined(text + FoldTail(wire, r).value.text, FoldTail(wire, r).value.r)
      ensures !joined ==> FoldTail(wire, r).value == Joined([], r) && !Blank(wire[r])
    {
      hide FoldTail, TermAt, Blank;
      var from, to;
      joined, from, to := ReadContinuation();
      if !joined { return false, m, []; }
      text := [SP] + b[from..to];
      end := AppendText(m, from, to);
    }

    /** The loop that joins continuation lines to the line in b[..end]. */
    method JoinLines(end: nat) returns (m: nat)
      requires Kept() && blockEnd != 0 && end < r <= blockEnd - 2 && (keepRaw ==> rawSaved == r)
      modifies b, this`touched, this`r, this`raw, this`rawSaved
      ensures Kept() && FoldTail(wire, old(r)).Some? && end <= m < r <= blockEnd - 2
      ensures b[..m] == old(b[..end]) + FoldTail(wire, old(r)).value.text
      ensures FoldTail(wire, old(r)).value.r == r && !Blank(wire[r])
    {
      hide FoldTail, TermAt, Blank;
      m := end;
      ghost var head, acc := b[..end], [];
      ghost var start := r;
      FoldInBlock(wire, blockEnd - 4, r);
      while true
        invariant Kept() && blockEnd != 0 && end <= m < r <= blockEnd - 2 && (keepRaw ==> rawSaved == r)
        invariant FoldTail(wire, start).Some? && FoldTail(wire, r).Some?
        invariant FoldTail(wire, start).value.r == FoldTail(wire, r).value.r
        invariant FoldTail(wire, start).value.text == acc + FoldTail(wire, r).value.text
        invariant b[..m] == head + acc
        decreases b.Length - r
      {
        var joined, m1, text := JoinOne(m);
        acc := acc + text;
        m := m1;
        if !joined { break; }
      }
    }
  
    /** The line at r, whose key is checked again and found valid. */
    method ReadFirstLine(ghost c: nat, ghost v: nat, ghost lf: nat) returns (from: nat, to: nat, colon: nat)
      requires Kept() && FoldsAt(wire, r, c, v, lf)
      modifies this`r, this`keyHasSpace
      ensures Kept() && from == old(r) && r == lf + 1 && from + colon == c < to <= lf
      ensures keyHasSpace == InnerSpace(wire[from..c]) && b[from..to] == Text(wire, from, lf)
    {
      hide First, Text, TrimRight, InnerSpace, EndsKey, Blank, NotBlank, IsLF, TermAt;
      LineOf(wire, r, c, v, lf);
      var ok, col, valid;
      from, to, ok := ReadLine();
      assert ok;
      col, keyHasSpace, valid := ScanHeaderKey(b, from, to);
      assert valid;
      colon := col;
    }

    /** readContinuedLineSlice up to the first write; ok is false when the block is not complete. */
    method StartFold(ghost c: nat, ghost v: nat, ghost lf: nat) returns (from: nat, to: nat, colon: nat, ok: bool)
      requires Kept() && FoldsAt(wire, r, c, v, lf)
      modifies this`r, this`keyHasSpace, this`blockEnd, this`raw, this`rawSaved
      ensures Kept() && from == old(r) && r == lf + 1 && from + colon == c < to <= lf && ok == Complete(wire)
      ensures keyHasSpace == InnerSpace(wire[from..c])
      ensures b[from..to] == wire[from..c + 1] + TrimRight(Text(wire, c + 1, lf))
      ensures ok ==> blockEnd != 0 && (keepRaw ==> rawSaved == r)
    {
      hide First, Text, TrimRight, InnerSpace, EndsKey, Blank, NotBlank, IsLF, TermAt, Complete;
      from, to, colon := ReadFirstLine(c, v, lf);
      ok := BlockComplete();
      TrimmedLine(wire, from, c, lf);
      if ok { SecureRaw(); }
      to := TrimEnd(b, from, to);
    }

    /** The joined line starts at from, and its first line ends at end. */
    method FinishFold(from: nat, end: nat, colon: nat, ghost first: seq<byte>) returns (v: nat, m: nat)
      requires Kept() && blockEnd != 0 && from + colon < end < r <= blockEnd - 2 && (keepRaw ==> rawSaved == r)
      requires b[from..end] == wire[from..from + colon + 1] + first && colon > 0
      modifies this`r, this`raw, this`rawSaved, this`touched, b
      ensures Kept() && FoldTail(wire, old(r)).Some? && FoldTail(wire, old(r)).value.r == r && !Blank(wire[r])
      ensures from + colon < v <= m <= b.Length && b[from..from + colon] == wire[from..from + colon]
      ensures b[v..m] == TrimLeft(first + FoldTail(wire, old(r)).value.text)
    {
      hide FoldTail, TermAt, Blank, TrimLeft;
      ghost var head, pos := b[..end], r;
      SliceOf(b, from, end, end);
      m := JoinLines(end);
      hide Kept;
      KeyAndValue(wire, head, from, from + colon, first, FoldTail(wire, pos).value.text);
      SliceOf(b, from, from + colon, m);
      SliceOf(b, from + colon + 1, m, m);
      v := SkipBlanks(b, from + colon + 1, m);
    }

    /** Hands out the field b[kf..kt] with the value b[vf..vt], which is what n says. */
    method Accept(kf: nat, kt: nat, vf: nat, vt: nat, valid: bool, ghost n: Scan)
      requires Ready() && initialized && err == NoErr && kf <= kt <= b.Length && vf <= vt <= b.Length
      requires n.Got? && n.r == r && n.field == Field(b[kf..kt], b[vf..vt], keyHasSpace, valid)
      modifies this`keyFrom, this`keyTo, this`valueFrom, this`valueTo, this`valueValid
      ensures Ready() && Returned(n, true)
    {
      keyFrom, keyTo, valueFrom, valueTo, valueValid := kf, kt, vf, vt, valid;
    }

    /** Joins what follows the line from..end and hands out the field. */
    method JoinField(from: nat, end: nat, colon: nat, ghost first: seq<byte>)
      requires Kept() && blockEnd != 0 && from + colon < end < r && InBlock(wire, r) && (keepRaw ==> rawSaved == r)
      requires b[from..end] == wire[from..from + colon + 1] + first && colon > 0 && initialized && err == NoErr
      modifies this`r, this`raw, this`rawSaved, this`touched, b,
               this`keyFrom, this`keyTo, this`valueFrom, this`valueTo, this`valueValid
      ensures Ready() && FoldTail(wire, old(r)).Some?
      ensures var j := FoldTail(wire, old(r)).value; var value := TrimLeft(first + j.text);
        Returned(Got(Field(wire[from..from + colon], value, keyHasSpace, AllValue(value)), true, j.r), true)
    {
      hide TrimRight, FoldTail, AllValue, TrimLeft, InBlock, Blank, TermAt;
      FoldReady(wire, r);
      InBlockAt(wire, r, blockEnd - 4);
      ghost var pos := r;
      var vf, vt := FinishFold(from, end, colon, first);
      var valid := AllValid(b, vf, vt);
      ghost var j := FoldTail(wire, pos).value;
      Accept(from, from + colon, vf, vt, valid,
             Got(Field(wire[from..from + colon], TrimLeft(first + j.text), keyHasSpace,
                 AllValue(TrimLeft(first + j.text))), true, j.r));
    }

    /** A field with continuation lines, whose first line is at r with its colon at c, its value
        at v and its end at lf. */
    method NextFolded(ghost c: nat, ghost v: nat, ghost lf: nat) returns (more: bool)
      requires Ready() && initialized && err == NoErr && FoldsAt(wire, r, c, v, lf)
      modifies this, b
      ensures Kept() && (more ==> Ready()) && initialized
      ensures Returned(FieldAt(wire, old(r), c, v, lf), more)
      ensures !more ==> b[..] == old(b[..])
    {
      hide First, Text, TrimRight, FoldTail, InnerSpace, EndsKey, AllValue, Trim, TrimLeft, Complete, NotBlank, IsLF,
           FieldAt, InBlock, Blank, TermAt;
      LineOf(wire, r, c, v, lf);
      BeforeBlank(wire, r, c, lf);
      FoldedField(wire, r, c, v, lf);
      var from, end, colon, complete := StartFold(c, v, lf);
      if !complete {
        err := NeedMore;
        return false;
      }
      JoinField(from, end, colon, TrimRight(Text(wire, c + 1, lf)));
      return true;
    }
  
    /** A bad line is reported once it is complete. */
    method FailLine()
      requires Kept()
      modifies this`err
      ensures Kept() && Returned(FailAt(wire, r), false)
    {
      hide First, Text, Trim, IsColon, IsLF;
      FirstSame(b[..], wire, r, IsLF);
      var lf := First(b[..], r, IsLF);
      if lf == b.Length {
        err := NeedMore;
        return;
      }
      TextSame(b[..], wire, r, lf);
      var line := Text(b[..], r, lf);
      err := Bad(if First(line, 0, IsColon) == |line| then MissingColon(line) else BadLine(Trim(line)));
    }

    /** The blank line at r, of n bytes, if that is what ends the block. */
    method EndBlock(n: nat, known: bool) returns (more: bool)
      requires Kept() && err == NoErr && 1 <= n <= 2 && r + n <= b.Length && (known ==> Complete(wire))
      modifies this`r, this`blockEnd, this`err
      ensures Kept() && !more && Returned(if Complete(wire) then End(old(r) + n) else More, more)
    {
      var done := known;
      if !done { done := BlockComplete(); }
      if done { r := r + n; } else { err := NeedMore; }
      return false;
    }

    /** A field on one line. */
    method PlainValue(c: nat, v: nat, lf: nat, valid: bool)
      requires Ready() && initialized && err == NoErr && HasField(wire, r, c, v, lf) && !Blank(wire[lf + 1])
      requires keyHasSpace == InnerSpace(wire[r..c]) && valid == AllValue(Text(wire, v, lf))
      modifies this
      ensures Ready() && initialized && Returned(FieldAt(wire, old(r), c, v, lf), true)
    {
      hide First, Text, TrimRight, InnerSpace, EndsKey, AllValue, NotBlank, IsLF, FieldAt, InBlock, TermAt, Blank;
      PlainField(wire, r, c, v, lf);
      LineOf(wire, r, c, v, lf);
      BeforeBlank(wire, r, c, lf);
      TextSame(b[..], wire, v, lf);
      var end := LineEnd(b, v, lf);
      var e := TrimEnd(b, v, end);
      ghost var n := FieldAt(wire, r, c, v, lf);
      var from := r;
      r := lf + 1;
      Accept(from, c, v, e, valid, n);
    }

    /** The value of the key that ends with the colon at c. */
    method NextValue(c: nat) returns (more: bool)
      requires Ready() && initialized && err == NoErr && r < c < b.Length
      requires c == First(wire, r, EndsKey) && wire[c] == COLON && keyHasSpace == InnerSpace(wire[r..c])
      modifies this, b
      ensures Kept() && (more ==> Ready()) && initialized
      ensures var v := First(wire, c + 1, NotBlank); var lf := First(wire, v, IsLF);
        Returned(if lf + 1 >= |wire| then More else FieldAt(wire, old(r), c, v, lf), more)
      ensures !more ==> b[..] == old(b[..])
    {
      hide First, Text, TrimRight, FoldTail, InnerSpace, EndsKey, AllValue, Trim, TrimLeft, Complete, NotBlank, IsLF,
           FieldAt, InBlock, TermAt, Blank;
      FirstSame(b[..], wire, c + 1, NotBlank);
      var v := First(b[..], c + 1, NotBlank);
      FirstSame(b[..], wire, v, IsLF);
      var lf, valid := ScanValueLine(b, v);
      if lf < 0 || lf + 1 >= b.Length {
        err := NeedMore;
        return false;
      }
      TextSame(b[..], wire, v, lf);
      if Blank(b[lf + 1]) {
        more := NextFolded(c, v, lf);
      } else {
        PlainValue(c, v, lf, valid);
        more := true;
      }
    }
  
    /** next on a block that has been started. */
    method NextLine() returns (more: bool)
      requires Ready() && initialized && err == NoErr
      modifies this, b
      ensures Kept() && (more ==> Ready()) && initialized
      ensures Returned(NextAt(wire, old(r)), more)
      ensures !more ==> b[..] == old(b[..])
    {
      hide First, FieldAt, FailAt, InnerSpace, EndsKey, InBlock, Blank, Complete;
      if r >= b.Length {
        err := NeedMore;
        return false;
      }
      if b[r] == CR {
        if r + 1 >= b.Length {
          err := NeedMore;
          return false;
        }
        if b[r + 1] == LF {
          LookBack();
          more := EndBlock(2, r >= 2 && b[r - 1] == LF && b[r - 2] == CR);
          return;
        }
      } else if b[r] == LF {
        more := EndBlock(1, false);
        return;
      }
      more := NextKey();
    }

    /** A CRLF right before r makes the block complete. If a join has rewritten it, the block
        was found to be complete before that. */
    lemma LookBack()
      requires Kept() && r + 1 < b.Length && b[r] == CR && b[r + 1] == LF
      ensures r >= 2 && b[r - 1] == LF && b[r - 2] == CR ==> Complete(wire)
    {
      if r >= 2 && b[r - 1] == LF && b[r - 2] == CR {
        if blockEnd != 0 { assert TermAt(wire, blockEnd - 4); } else { assert TermAt(wire, r - 2); }
      }
    }

    /** The colon of the key at r; found is false when there is none to go on from. */
    method FindKey() returns (c: nat, found: bool)
      requires Ready() && initialized && err == NoErr && r < b.Length
      modifies this`err, this`keyHasSpace
      ensures Ready() && c == First(wire, r, EndsKey)
      ensures found ==> err == NoErr && r < c < b.Length && wire[c] == COLON && keyHasSpace == InnerSpace(wire[r..c])
      ensures !found ==> Returned(KeyAt(wire, r), false)
    {
      hide First, FieldAt, FailAt, InnerSpace, EndsKey, InBlock, Blank, NotBlank, IsLF, TermAt, KeyAt;
      FirstSame(b[..], wire, r, EndsKey);
      KeyCases(wire, r);
      var inner;
      c, inner := ScanKey(b, r);
      assert b[r..c] == wire[r..c];
      found := c < b.Length && b[c] == COLON && c != r;
      if c >= b.Length {
        err := NeedMore;
      } else if b[c] != COLON || c == r {
        FailLine();
      } else {
        keyHasSpace := inner;
      }
    }

    /** The key at r, which starts with neither CRLF nor LF, and its value. */
    method NextKey() returns (more: bool)
      requires Ready() && initialized && err == NoErr && r < b.Length
      modifies this, b
      ensures Kept() && (more ==> Ready()) && initialized
      ensures Returned(KeyAt(wire, old(r)), more)
      ensures !more ==> b[..] == old(b[..])
    {
      hide First, FieldAt, FailAt, InnerSpace, EndsKey, InBlock, Blank, NotBlank, IsLF, TermAt, KeyAt, Returned;
      KeyCases(wire, r);
      var c, found := FindKey();
      if !found { return false; }
      more := NextValue(c);
    }

    /** Reads the next field. What it returns depends only on the bytes of the wire; a call that
        asks for more bytes, fails or ends the block has not changed the buffer. */
    method Next() returns (more: bool)
      requires Ready() && err == NoErr
      modifies this, b
      ensures Kept() && (more ==> Ready() && initialized)
      ensures Returned(if old(initialized) then NextAt(wire, old(r)) else StartAt(wire), more)
      ensures !more ==> b[..] == old(b[..])
    {
      hide NextAt, InBlock;
      if !initialized {
        if b.Length >= 2 && b[0] == CR && b[1] == LF {
          r := 2;
          return false;
        }
        if b.Length > 0 && Blank(b[0]) {
          err := Bad(LeadingSpace);
          return false;
        }
        initialized := true;
      }
      more := NextLine();
    }
  }

  lemma KeyCases(b: seq<byte>, r: nat)
    requires r < |b|
    ensures var c := First(b, r, EndsKey);
      && (c == |b| ==> KeyAt(b, r) == More)
      && (c < |b| && (b[c] != COLON || c == r) ==> KeyAt(b, r) == FailAt(b, r))
      && (c < |b| && b[c] == COLON && c > r ==>
            var v := First(b, c + 1, NotBlank); var lf := First(b, v, IsLF);
            KeyAt(b, r) == if lf + 1 >= |b| then More else FieldAt(b, r, c, v, lf))
  {
    hide First, FieldAt, FailAt;
  }

  /** Where the text of a line ends: before its line feed and a CR in front of that. */
  method LineEnd(b: array<byte>, v: nat, lf: nat) returns (end: nat)
    requires v <= lf <= b.Length
    ensures v <= end <= lf && b[v..end] == Text(b[..], v, lf)
  {
    end := if lf > v && b[lf - 1] == CR then lf - 1 else lf;
  }

  lemma FoldedField(b: seq<byte>, r: nat, c: nat, v: nat, lf: nat)
    requires FoldsAt(b, r, c, v, lf)
    ensures !Complete(b) ==> FieldAt(b, r, c, v, lf) == More
    ensures Complete(b) && FoldTail(b, lf + 1).Some? ==>
      var j := FoldTail(b, lf + 1).value;
      var value := TrimLeft(TrimRight(Text(b, c + 1, lf)) + j.text);
      FieldAt(b, r, c, v, lf) == Got(Field(b[r..c], value, InnerSpace(b[r..c]), AllValue(value)), true, j.r)
  {
    hide First, Text, TrimRight, FoldTail, InnerSpace, AllValue, Trim, TrimLeft, Complete;
  }

  lemma SliceOf(b: array<byte>, i: nat, j: nat, m: nat)
    requires i <= j <= m <= b.Length
    ensures b[i..j] == b[..m][i..j] && (j == m ==> b[i..j] == b[..m][i..])
  {
  }

  lemma KeyAndValue(wire: seq<byte>, head: seq<byte>, from: nat, c: nat, first: seq<byte>, text: seq<byte>)
    requires from < c < |wire| && from <= |head| && head[from..] == wire[from..c + 1] + first
    ensures var b := head + text; c + 1 <= |b| && b[from..c] == wire[from..c] && b[c + 1..] == first + text
  {
    var b := head + text;
    assert b[from..] == wire[from..c + 1] + (first + text);
    assert b[from..c] == b[from..][..c - from];
    assert b[c + 1..] == b[from..][c + 1 - from..];
  }

  /** The joining stops at the blank line of the block at the latest. */
  lemma FoldReady(b: seq<byte>, pos: nat)
    requires pos <= |b| && InBlock(b, pos)
    ensures FoldTail(b, pos).Some? ==> InBlock(b, FoldTail(b, pos).value.r)
  {
    hide FoldTail, TermAt;
    forall e: nat | TermAt(b, e)
      ensures FoldTail(b, pos).Some? && FoldTail(b, pos).value.r <= e + 2 { FoldInBlock(b, e, pos); }
  }

  /** A line with a key comes before the blank line of the block. */
  lemma BeforeBlank(b: seq<byte>, r: nat, c: nat, lf: nat)
    requires r < c < |b| && c == First(b, r, EndsKey) && lf < |b| && First(b, r, IsLF) == lf
    requires InBlock(b, r)
    ensures InBlock(b, lf + 1)
  {
    hide First, EndsKey;
    StopBytes();
    forall e: nat | TermAt(b, e) ensures lf + 1 <= e + 2 {
      assert !EndsKey(b[r]);
      FirstBefore(b, r, IsLF, e + 1);
    }
  }

  /** The first byte of from..to that is neither space nor tab, or to. */
  method SkipBlanks(b: array<byte>, from: nat, to: nat) returns (v: nat)
    requires from <= to <= b.Length
    ensures from <= v <= to && b[v..to] == TrimLeft(b[from..to])
  {
    hide First;
    v := from;
    ghost var s := b[from..to];
    while v < to && Blank(b[v])
      invariant from <= v <= to && forall k :: 0 <= k < v - from ==> !NotBlank(s[k])
    {
      assert s[v - from] == b[v];
      v := v + 1;
    }
    assert First(s, 0, NotBlank) == v - from by {
      if v < to { FirstIs(s, 0, NotBlank, v - from); }
    }
  }

  /** Whether b[from..to] holds only valid value bytes; clean words are skipped first. */
  method AllValid(b: array<byte>, from: nat, to: nat) returns (ok: bool)
    requires from <= to <= b.Length
    ensures ok == AllValue(b[from..to])
  {
    hide LoadWord, AnyByteIsCTL, ValueByte;
    ghost var s := b[from..to];
    var i := from;
    while i + 8 <= to && !AnyByteIsCTL(LoadWord(b[i..i + 8]))
      invariant from <= i <= to && AllValue(s[..i - from])
    {
      CleanValues(b[i..i + 8]);
      assert s[..i + 8 - from] == s[..i - from] + b[i..i + 8];
      AllValueConcat(s[..i - from], b[i..i + 8]);
      i := i + 8;
    }
    while i < to
      invariant from <= i <= to && AllValue(s[..i - from])
    {
      assert s[i - from] == b[i];
      if !ValueByte(b[i]) { return false; }
      assert s[..i + 1 - from] == s[..i - from] + [b[i]];
      AllValueConcat(s[..i - from], [b[i]]);
      i := i + 1;
    }
    assert s[..i - from] == s;
    return true;
  }

  lemma CleanValues(s: seq<byte>)
    requires |s| == 8 && !AnyByteIsCTL(LoadWord(s))
    ensures AllValue(s)
  {
    hide AnyByteIsCTL, LoadWord;
    AnyByteIsCTLExact(s);
  }

  /** A line with its key at r, its colon at c, its value at v and its end at lf. */
  ghost predicate HasField(b: seq<byte>, r: nat, c: nat, v: nat, lf: nat) {
    && r < c < v <= lf && lf + 1 < |b|
    && c == First(b, r, EndsKey) && b[c] == COLON
    && v == First(b, c + 1, NotBlank) && lf == First(b, v, IsLF)
  }

  /** What next has found out when it turns to the folding reader. */
  ghost predicate FoldsAt(b: seq<byte>, r: nat, c: nat, v: nat, lf: nat) {
    HasField(b, r, c, v, lf) && Blank(b[lf + 1])
  }

  lemma PlainField(b: seq<byte>, r: nat, c: nat, v: nat, lf: nat)
    requires HasField(b, r, c, v, lf) && !Blank(b[lf + 1])
    ensures FieldAt(b, r, c, v, lf)
      == Got(Field(b[r..c], TrimRight(Text(b, v, lf)), InnerSpace(b[r..c]), AllValue(Text(b, v, lf))), false, lf + 1)
  {
    hide First, Text, TrimRight, FoldTail, InnerSpace, AllValue, Trim, TrimLeft, Complete;
  }

  /** The line reader finds the same line and the same key. */
  lemma LineOf(b: seq<byte>, r: nat, c: nat, v: nat, lf: nat)
    requires HasField(b, r, c, v, lf)
    ensures First(b, r, IsLF) == lf
    ensures var line := Text(b, r, lf);
      c - r < |line| && line[c - r] == COLON && First(line, 0, EndsKey) == c - r && line[..c - r] == b[r..c]
  {
    hide First, FieldByte;
    forall k | r <= k < lf ensures !IsLF(b[k]) {
      if k < c { assert !EndsKey(b[k]); LFEnds(); } else if c < k < v { assert !NotBlank(b[k]); }
    }
    FirstIs(b, r, IsLF, lf);
    var line := Text(b, r, lf);
    assert line <= b[r..lf];
    ColonEnds();
    forall k | 0 <= k < c - r ensures !EndsKey(line[k]) { assert line[k] == b[r + k]; }
    FirstIs(line, 0, EndsKey, c - r);
  }

  lemma LFEnds()
    ensures EndsKey(LF)
  {
  }

  /** Trimming the line does not reach its colon. */
  lemma TrimmedLine(b: seq<byte>, r: nat, c: nat, lf: nat)
    requires r < c < lf <= |b| && b[c] == COLON
    ensures TrimRight(Text(b, r, lf)) == b[r..c + 1] + TrimRight(Text(b, c + 1, lf))
  {
    hide TrimRight;
    var end := if lf > c + 1 && b[lf - 1] == CR then lf - 1 else lf;
    assert Text(b, r, lf) == b[r..end] && Text(b, c + 1, lf) == b[c + 1..end];
    assert b[r..end] == b[r..c + 1] + b[c + 1..end];
    TrimRightKeeps(b[r..c + 1], b[c + 1..end]);
  }

  lemma {:induction false} TrimRightKeeps(p: seq<byte>, s: seq<byte>)
    requires p != [] && !Blank(p[|p| - 1])
    ensures TrimRight(p + s) == p + TrimRight(s)
    decreases |s|
  {
    if s == [] {
      assert p + s == p;
    } else {
      var t, c := s[..|s| - 1], s[|s| - 1];
      assert s == t + [c] && p + s == (p + t) + [c];
      TrimRightLast(p + t, c);
      TrimRightLast(t, c);
      TrimRightKeeps(p, t);
    }
  }

  /** A space at m and behind it the bytes from..to, which lie further up. */
  method CopyDown(b: array<byte>, m: nat, from: nat, to: nat)
    requires m < from <= to <= b.Length
    modifies b
    ensures b[..m + 1 + (to - from)] == old(b[..m]) + ([SP] + old(b[from..to]))
    ensures forall k :: m + 1 + (to - from) <= k < b.Length ==> b[k] == old(b[k])
  {
    ghost var s := b[..];
    var d := from - m - 1;
    b[m] := SP;
    var w := m + 1;
    while w + d < to
      invariant m < w <= m + 1 + (to - from)
      invariant b[..w] == s[..m] + ([SP] + s[from..w + d])
      invariant forall k :: w <= k < b.Length ==> b[k] == s[k]
    {
      b[w] := b[w + d];
      w := w + 1;
      assert s[from..w + d] == s[from..w + d - 1] + [s[w + d - 1]];
      assert b[..w] == b[..w - 1] + [b[w - 1]];
    }
  }

  /** One turn of the joining loop, in a block that ends at e. */
  lemma FoldCases(b: seq<byte>, e: nat, pos: nat)
    requires TermAt(b, e) && pos <= e + 2
    ensures var q := First(b, pos, NotBlank);
      && q < |b|
      && (q == pos ==> FoldTail(b, pos) == Some(Joined([], pos)) && !Blank(b[pos]))
      && (q > pos ==>
            var lf := First(b, q, IsLF);
            && lf + 1 <= e + 2 && FoldTail(b, lf + 1).Some?
            && FoldTail(b, pos) == Some(Joined([SP] + TrimRight(Text(b, q, lf)) + FoldTail(b, lf + 1).value.text,
                                               FoldTail(b, lf + 1).value.r)))
  {
    hide First, TrimRight, Trim, Text;
    var q := First(b, pos, NotBlank);
    FoldInBlock(b, e, pos);
    if q > pos {
      assert q <= e by { FirstBefore(b, pos, NotBlank, e); }
      FirstBefore(b, q, IsLF, e + 1);
      var lf := First(b, q, IsLF);
      FoldInBlock(b, e, lf + 1);
      TrimText(b, q, lf);
    }
  }

  lemma TrimText(b: seq<byte>, q: nat, lf: nat)
    requires q <= lf < |b| && !Blank(b[q])
    ensures Trim(Text(b, q, lf)) == TrimRight(Text(b, q, lf))
  {
    assert TrimLeft(Text(b, q, lf)) == Text(b, q, lf);
  }
}
