/** The readers and writers of chunked bodies (fasthttp/http.go:2843-2894, 3106-3133, 3228-3370,
    fasthttp/bytesconv.go:407-460). */
module ChunkStreams {
  import opened Common
  import opened Octets
  import opened Chunked

  /** bufio.Reader over all bytes of a connection, which ends behind them. */
  class BufReader {
    var b: seq<octet>
    var pos: nat

    ghost predicate Valid()
      reads this
    {
      pos <= |b|
    }

    constructor (bytes: seq<octet>)
      ensures b == bytes && pos == 0 && Valid()
    {
      b, pos := bytes, 0;
    }

    method ReadByte() returns (c: Option<octet>)
      requires Valid()
      modifies this`pos
      ensures Valid() && c == if old(pos) < |b| then Some(b[old(pos)]) else None
      ensures pos == if c.Some? then old(pos) + 1 else old(pos)
    {
      if pos == |b| { return None; }
      c := Some(b[pos]);
      pos := pos + 1;
    }

    method UnreadByte()
      requires Valid() && pos > 0
      modifies this`pos
      ensures Valid() && pos == old(pos) - 1
    {
      pos := pos - 1;
    }

    /** Any number of bytes from one up to n, or nothing at the end. The end may be reported with
        the last bytes or after them. */
    method Read(n: nat) returns (s: seq<octet>, end: bool)
      requires Valid()
      modifies this`pos
      ensures Valid() && pos == old(pos) + |s| && |s| <= n && s == b[old(pos)..pos]
      ensures s == [] <==> n == 0 || old(pos) == |b|
      ensures (end ==> pos == |b|) && (s == [] && n > 0 ==> end)
    {
      s := [];
      if n > 0 && pos < |b| {
        var k: nat :| 1 <= k <= n && pos + k <= |b|;
        s := b[pos..pos + k];
        pos := pos + k;
      }
      end :| (end ==> pos == |b|) && (s == [] && n > 0 ==> end);
    }
  }

  lemma HexValueNext(b: seq<octet>, i: nat, j: nat)
    requires i <= j < |b|
    ensures HexValue(b[i..j + 1]) == HexValue(b[i..j]) * 16 + HexVal(b[j])
  {
    assert b[i..j + 1][..j - i] == b[i..j];
  }

  /** A reader at `from` that took a number is behind it; otherwise it has gone on, by one byte if
      that was no digit. */
  ghost predicate Took(size: Result<Size, Error>, n: Result<nat, Error>, from: nat, pos: nat, len: nat) {
    match size
    case Ok(s) => n == Ok(s.n) && pos == s.next
    case Err(e) =>
      && n == Err(e) && from <= pos && (e == NoNumber ==> pos == from + 1) && (e == EndOfInput ==> pos == from == len)
  }

  method ReadHexInt(r: BufReader) returns (n: Result<nat, Error>)
    requires r.Valid()
    modifies r`pos
    ensures r.Valid()
    ensures Took(HexAt(r.b, old(r.pos)), n, old(r.pos), r.pos, |r.b|)
  {
    var k: nat, i: nat := 0, 0;
    ghost var b, start := r.b, r.pos;
    NumberSoFar(b, start);
    hide HexValue, HexEnd, HexVal, HexAt;
    while true
      invariant r.b == b && r.Valid() && r.pos == start + i && i <= MaxHexChars && SoFar(b, start, r.pos, k)
      decreases |b| - r.pos
    {
      NumberStep(b, start, r.pos, k);
      hide SoFar;
      var c := r.ReadByte();
      if c.None? { return if i > 0 then Ok(k) else Err(EndOfInput); }
      if !IsHex(c.value) {
        if i == 0 { return Err(NoNumber); }
        r.UnreadByte();
        return Ok(k);
      }
      if i >= MaxHexChars { return Err(NumberTooLarge); }
      k := k * 16 + HexVal(c.value);
      i := i + 1;
    }
  }

  /** The bytes from start to pos are digits, with the value k. */
  ghost predicate SoFar(b: seq<octet>, start: nat, pos: nat, k: nat) {
    start <= pos <= |b| && k == HexValue(b[start..pos]) && HexEnd(b, start) == HexEnd(b, pos)
  }

  lemma NumberSoFar(b: seq<octet>, start: nat)
    requires start <= |b|
    ensures SoFar(b, start, start, 0)
  {
  }

  /** One more byte: the number goes on, or it is known. */
  lemma NumberStep(b: seq<octet>, start: nat, pos: nat, k: nat)
    requires SoFar(b, start, pos, k) && pos <= start + MaxHexChars
    ensures pos < |b| && IsHex(b[pos]) ==> SoFar(b, start, pos + 1, k * 16 + HexVal(b[pos]))
    ensures pos < |b| && IsHex(b[pos]) && pos == start + MaxHexChars ==> HexAt(b, start) == Err(NumberTooLarge)
    ensures pos == |b| || !IsHex(b[pos]) ==>
      HexAt(b, start) ==
      if start == |b| then Err(EndOfInput) else if pos == start then Err(NoNumber) else Ok(Size(k, pos))
  {
    if pos < |b| { HexValueNext(b, start, pos); }
  }

  method ReadCrLf(r: BufReader) returns (ok: bool)
    requires r.Valid()
    modifies r`pos
    ensures r.Valid() && old(r.pos) <= r.pos && ok == CrLfAt(r.b, old(r.pos)) && (ok ==> r.pos == old(r.pos) + 2)
  {
    var c := r.ReadByte();
    if c != Some(CR) { return false; }
    c := r.ReadByte();
    ok := c == Some(LF);
  }

  method ParseChunkSize(r: BufReader) returns (n: Result<nat, Error>)
    requires r.Valid()
    modifies r`pos
    ensures r.Valid()
    ensures Took(SizeAt(r.b, old(r.pos)), n, old(r.pos), r.pos, |r.b|)
  {
    hide HexAt;
    n := ReadHexInt(r);
    if n.Err? { return; }
    var inExt, afterSizeOWS := false, false;
    ghost var start := r.pos;
    while true
      invariant r.Valid() && start <= r.pos
      invariant LineEnd(r.b, r.pos, afterSizeOWS, inExt) == LineEnd(r.b, start, false, false)
      decreases |r.b| - r.pos
    {
      var c := r.ReadByte();
      if c.None? { return Err(BrokenChunk); }
      if c.value == CR {
        r.UnreadByte();
        break;
      }
      if c.value == LF { return Err(BrokenChunk); }
      if inExt { continue; }
      if c.value == SP || c.value == TAB {
        afterSizeOWS := true;
      } else if c.value == SEMI {
        if afterSizeOWS { return Err(BrokenChunk); }
        inExt := true;
      } else {
        return Err(BrokenChunk);
      }
    }
    var ok := ReadCrLf(r);
    if !ok { return Err(BrokenChunk); }
  }

  /** n more bytes, in as many reads as it takes. */
  method AppendBodyFixedSize(r: BufReader, dst: seq<octet>, n: nat) returns (out: seq<octet>, ok: bool)
    requires r.Valid()
    modifies r`pos
    ensures r.Valid() && ok == (old(r.pos) + n <= |r.b|)
    ensures ok ==> r.pos == old(r.pos) + n && out == dst + r.b[old(r.pos)..r.pos]
  {
    out := dst;
    ghost var start := r.pos;
    var got := 0;
    while got < n
      invariant r.Valid() && got <= n && r.pos == start + got && out == dst + r.b[start..r.pos]
    {
      ghost var mid := r.pos;
      var s, end := r.Read(n - got);
      if s == [] { return out, false; }
      assert r.b[start..r.pos] == r.b[start..mid] + s;
      out := out + s;
      got := got + |s|;
    }
    ok := true;
  }

  /** The data of a chunk and the CRLF behind it. */
  method AppendChunk(r: BufReader, dst: seq<octet>, n: nat) returns (out: seq<octet>, err: Option<Error>)
    requires r.Valid() && n > 0
    modifies r`pos
    ensures r.Valid()
    ensures if old(r.pos) + n + 2 > |r.b| then err == Some(UnexpectedEOF)
            else if !CrLfAt(r.b, old(r.pos) + n) then err == Some(BrokenChunk)
            else err == None && r.pos == old(r.pos) + n + 2 && out == dst + r.b[old(r.pos)..old(r.pos) + n]
  {
    ghost var p := r.pos;
    var ok;
    out, ok := AppendBodyFixedSize(r, dst, n + 2);
    if !ok { return out, Some(UnexpectedEOF); }
    assert out[|out| - 2..] == r.b[p..r.pos][n..] == r.b[p + n..p + n + 2];
    CrLfIs(r.b, p + n);
    if out[|out| - 2..] != CRLF { return out, Some(BrokenChunk); }
    assert out[..|out| - 2] == dst + r.b[p..p + n];
    return out[..|out| - 2], None;
  }

  lemma CrLfIs(b: seq<octet>, i: nat)
    requires i + 2 <= |b|
    ensures CrLfAt(b, i) <==> b[i..i + 2] == CRLF
  {
    assert b[i..i + 2] == [b[i], b[i + 1]];
  }

  /** readBodyChunked with an empty buffer; a limit of zero means none. */
  method ReadBodyChunked(r: BufReader, maxBodySize: nat) returns (dst: seq<octet>, err: Option<Error>)
    requires r.Valid()
    modifies r`pos
    ensures r.Valid()
    ensures match Body(r.b, old(r.pos))
            case Err(_) => err.Some?
            case Ok(d) =>
              if maxBodySize == 0 || |d.body| <= maxBodySize then err == None && dst == d.body && r.pos == d.next
              else err == Some(BodyTooLarge)
  {
    hide SizeAt, Body, InChunk, CrLfAt;
    dst, err := [], None;
    ghost var start := r.pos;
    PrependNone(Body(r.b, start));
    while true
      invariant r.Valid() && start <= r.pos && (maxBodySize == 0 || |dst| <= maxBodySize)
      invariant Body(r.b, start) == Prepend(dst, Body(r.b, r.pos))
      decreases |r.b| - r.pos
    {
      BodyStep(r.b, r.pos);
      var size := ParseChunkSize(r);
      if size.Err? { return dst, Some(size.error); }
      var n := size.value;
      if n == 0 {
        assert dst + [] == dst;
        return dst, None;
      }
      if maxBodySize > 0 && |dst| + n > maxBodySize { return dst, Some(BodyTooLarge); }
      ghost var was, p := dst, r.pos;
      dst, err := AppendChunk(r, dst, n);
      if err.Some? { return; }
      PrependTwice(was, r.b[p..p + n], Body(r.b, r.pos));
    }
  }

  lemma PrependNone(r: Result<Decoded, Error>)
    ensures Prepend([], r) == r
  {
    if r.Ok? { assert [] + r.value.body == r.value.body; }
  }

  lemma PrependTwice(s: seq<octet>, t: seq<octet>, r: Result<Decoded, Error>)
    ensures Prepend(s, Prepend(t, r)) == Prepend(s + t, r)
  {
    if r.Ok? { assert s + (t + r.value.body) == s + t + r.value.body; }
  }

  /** Body, one chunk at a time. */
  lemma BodyStep(b: seq<octet>, i: nat)
    requires i <= |b|
    ensures SizeAt(b, i).Err? ==> Body(b, i) == Err(SizeAt(b, i).error)
    ensures SizeAt(b, i).Ok? && SizeAt(b, i).value.n == 0 ==> Body(b, i) == Ok(Decoded([], SizeAt(b, i).value.next))
    ensures SizeAt(b, i).Ok? && SizeAt(b, i).value.n > 0 ==>
      var (p, n) := (SizeAt(b, i).value.next, SizeAt(b, i).value.n);
      Body(b, i) == InChunk(b, p, n) && ChunkEnds(b, p, n)
  {
    hide SizeAt;
  }

  /** InChunk, unfolded once. */
  ghost predicate ChunkEnds(b: seq<octet>, p: nat, n: nat)
    requires p <= |b| && n > 0
  {
    && (p + n + 2 > |b| ==> InChunk(b, p, n) == Err(UnexpectedEOF))
    && (p + n + 2 <= |b| && !CrLfAt(b, p + n) ==> InChunk(b, p, n) == Err(BrokenChunk))
    && (p + n + 2 <= |b| && CrLfAt(b, p + n) ==> InChunk(b, p, n) == Prepend(b[p..p + n], Body(b, p + n + 2)))
  }

  // ---- writing

  /** writeHexInt of a non-negative 64-bit int, whose digits fill the buffer from its end. */
  method WriteHexInt(n: nat) returns (out: seq<octet>)
    requires n < 0x8000_0000_0000_0000
    ensures out == Hex(n)
  {
    var buf := new octet[MaxHexChars + 1];
    var i, m := MaxHexChars, n;
    SixteenDigits(n);
    while true
      invariant 0 <= i <= MaxHexChars && Hex(n) == Hex(m) + buf[i + 1..] && |Hex(m)| <= i + 1
      decreases m
    {
      buf[i] := Digit(m % 16);
      assert buf[i..] == [Digit(m % 16)] + buf[i + 1..];
      if m / 16 == 0 { break; }
      assert Hex(m) == Hex(m / 16) + [Digit(m % 16)];
      m := m / 16;
      i := i - 1;
    }
    out := buf[i..];
  }

  lemma SixteenDigits(n: nat)
    requires n < 0x8000_0000_0000_0000
    ensures |Hex(n)| <= MaxHexChars + 1
  {
    HexLength(n, 16);
    assert Pow16(4) == 0x1_0000;
    assert Pow16(8) == 0x1_0000 * Pow16(4);
    assert Pow16(12) == 0x1_0000 * Pow16(8);
    assert Pow16(16) == 0x1_0000 * Pow16(12);
  }

  method WriteChunk(c: seq<octet>) returns (out: seq<octet>)
    requires |c| < 0x8000_0000_0000_0000
    ensures out == Chunk(c)
  {
    out := WriteHexInt(|c|);
    out := out + CRLF + c;
    if |c| > 0 { out := out + CRLF; }
  }

  /** writeBodyChunked of a body that Read delivers in the given pieces; empty ones are skipped.
      Pieces below 16^15 bytes read back as the body. */
  method WriteBodyChunked(pieces: seq<seq<octet>>) returns (out: seq<octet>, ghost chunks: seq<seq<octet>>)
    requires forall i :: 0 <= i < |pieces| ==> |pieces[i]| < 0x8000_0000_0000_0000
    ensures out == Written(chunks) && Joined(chunks) == Joined(pieces)
    ensures forall c :: c in chunks ==> c != [] && c in pieces
    ensures (forall c :: c in pieces ==> |c| < Pow16(MaxHexChars)) ==>
      Body(out, 0) == Ok(Decoded(Joined(pieces), |out|))
  {
    hide Body, Chunk, Pow16;
    out, chunks := [], [];
    var k := 0;
    assert pieces[..0] == [];
    while k < |pieces|
      invariant 0 <= k <= |pieces| && out == Framed(chunks) && Joined(chunks) == Joined(pieces[..k])
      invariant forall c :: c in chunks ==> c != [] && c in pieces
    {
      assert pieces[..k + 1] == pieces[..k] + [pieces[k]];
      AddChunk(pieces[..k], pieces[k]);
      if pieces[k] != [] {
        var c := WriteChunk(pieces[k]);
        AddChunk(chunks, pieces[k]);
        out := out + c;
        chunks := chunks + [pieces[k]];
      }
      k := k + 1;
    }
    assert pieces[..|pieces|] == pieces;
    var last := WriteChunk([]);
    out := out + last;
    ReadsBack(pieces, chunks);
  }

  lemma ReadsBack(pieces: seq<seq<octet>>, chunks: seq<seq<octet>>)
    requires Joined(chunks) == Joined(pieces) && forall c :: c in chunks ==> c != [] && c in pieces
    ensures (forall c :: c in pieces ==> |c| < Pow16(MaxHexChars)) ==>
      Body(Written(chunks), 0) == Ok(Decoded(Joined(pieces), |Written(chunks)|))
  {
    hide Pow16, Body, Written;
    if forall c :: c in pieces ==> |c| < Pow16(MaxHexChars) {
      assert Written(chunks)[0..|Written(chunks)|] == Written(chunks);
      assert Sized(chunks) by {
        forall i | 0 <= i < |chunks| ensures 0 < |chunks[i]| < Pow16(MaxHexChars) { assert chunks[i] in chunks; }
      }
      DecodeWritten(Written(chunks), 0, chunks);
    }
  }
}
