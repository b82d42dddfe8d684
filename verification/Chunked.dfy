/** Chunked bodies, section 7.1 of RFC 9112 (fasthttp/http.go:2843-2894, 3106-3133, 3228-3370,
    fasthttp/bytesconv.go:407-460): the writer, what the bytes mean, and the decoder that
    collects a whole body. The streaming decoder is in ChunkStream.dfy. */
module Chunked {
  import opened Common
  import opened Octets

  const CR: octet := 13
  const LF: octet := 10
  const SP: octet := 32
  const TAB: octet := 9
  const SEMI: octet := 59

  /** maxHexIntChars of a 64-bit build. */
  const MaxHexChars: nat := 15

  // ---- hexadecimal numbers

  function Digit(k: nat): (c: octet)
    requires k < 16
    ensures HexVal(c) == k
  {
    if k < 10 then 48 + k else 87 + k
  }

  /** The shortest lower-case form. */
  function Hex(n: nat): (s: seq<octet>)
    ensures |s| >= 1 && (forall i :: 0 <= i < |s| ==> IsHex(s[i]))
  {
    if n < 16 then [Digit(n)] else Hex(n / 16) + [Digit(n % 16)]
  }

  function HexValue(s: seq<octet>): nat {
    if s == [] then 0 else HexValue(s[..|s| - 1]) * 16 + HexVal(s[|s| - 1])
  }

  function Pow16(k: nat): (p: nat)
    ensures p > 0
  {
    if k == 0 then 1 else 16 * Pow16(k - 1)
  }

  lemma {:induction false} HexRoundTrip(n: nat)
    ensures HexValue(Hex(n)) == n
  {
    if n >= 16 {
      HexRoundTrip(n / 16);
      assert (Hex(n / 16) + [Digit(n % 16)])[..|Hex(n / 16)|] == Hex(n / 16);
    }
  }

  lemma {:induction false} HexLength(n: nat, k: nat)
    requires k >= 1
    ensures |Hex(n)| <= k <==> n < Pow16(k)
    decreases k
  {
    if k == 1 {
      assert Pow16(1) == 16 * Pow16(0);
    } else if n >= 16 {
      HexLength(n / 16, k - 1);
    } else {
      Pow16Grows(k);
    }
  }

  lemma Pow16Grows(k: nat)
    requires k >= 1
    ensures Pow16(k) >= 16
  {
  }

  // ---- the reader's pieces

  /** EndOfInput: the bytes end where a chunk would start. */
  datatype Error = EndOfInput | NoNumber | NumberTooLarge | BrokenChunk | UnexpectedEOF | BodyTooLarge

  datatype Size = Size(n: nat, next: nat)

  function HexEnd(b: seq<octet>, i: nat): (j: nat)
    requires i <= |b|
    ensures i <= j <= |b| && (forall k :: i <= k < j ==> IsHex(b[k])) && (j < |b| ==> !IsHex(b[j]))
    decreases |b| - i
  {
    if i < |b| && IsHex(b[i]) then HexEnd(b, i + 1) else i
  }

  /** The number at i. */
  function HexAt(b: seq<octet>, i: nat): (r: Result<Size, Error>)
    requires i <= |b|
    ensures r.Ok? ==> i < r.value.next <= |b|
  {
    var j := HexEnd(b, i);
    if i == |b| then Err(EndOfInput)
    else if j == i then Err(NoNumber)
    else if j - i > MaxHexChars then Err(NumberTooLarge)
    else Ok(Size(HexValue(b[i..j]), j))
  }

  /** The CR that ends a chunk-size line: only blanks, or an extension without line feeds,
      may come before it. */
  function LineEnd(b: seq<octet>, i: nat, ows: bool, ext: bool): (j: Option<nat>)
    requires i <= |b|
    ensures j.Some? ==> i <= j.value < |b| && b[j.value] == CR
    decreases |b| - i
  {
    if i == |b| || b[i] == LF then None
    else if b[i] == CR then Some(i)
    else if ext then LineEnd(b, i + 1, ows, ext)
    else if b[i] == SP || b[i] == TAB then LineEnd(b, i + 1, true, ext)
    else if b[i] == SEMI && !ows then LineEnd(b, i + 1, ows, true)
    else None
  }

  predicate CrLfAt(b: seq<octet>, i: nat) { i + 2 <= |b| && b[i] == CR && b[i + 1] == LF }

  /** The chunk-size line at i. */
  function SizeAt(b: seq<octet>, i: nat): (r: Result<Size, Error>)
    requires i <= |b|
    ensures r.Ok? ==> i < r.value.next <= |b|
  {
    match HexAt(b, i)
    case Err(e) => Err(e)
    case Ok(s) =>
      match LineEnd(b, s.next, false, false)
      case None => Err(BrokenChunk)
      case Some(j) => if CrLfAt(b, j) then Ok(Size(s.n, j + 2)) else Err(BrokenChunk)
  }

  datatype Decoded = Decoded(body: seq<octet>, next: nat)

  /** The chunks at i up to the end of the last chunk's size line. */
  function Body(b: seq<octet>, i: nat): (r: Result<Decoded, Error>)
    requires i <= |b|
    ensures r.Ok? ==> i < r.value.next <= |b|
    decreases |b| - i
  {
    match SizeAt(b, i)
    case Err(e) => Err(e)
    case Ok(s) => if s.n == 0 then Ok(Decoded([], s.next)) else InChunk(b, s.next, s.n)
  }

  /** The rest of a chunk of which `left` bytes are still to come, and the chunks after it. */
  function InChunk(b: seq<octet>, i: nat, left: nat): (r: Result<Decoded, Error>)
    requires i <= |b| && left > 0
    ensures r.Ok? ==> i < r.value.next <= |b|
    decreases |b| - i, 1
  {
    if i + left + 2 > |b| then Err(UnexpectedEOF)
    else if !CrLfAt(b, i + left) then Err(BrokenChunk)
    else
      Prepend(b[i..i + left], Body(b, i + left + 2))
  }

  function Prepend(s: seq<octet>, r: Result<Decoded, Error>): Result<Decoded, Error> {
    match r
    case Err(e) => Err(e)
    case Ok(d) => Ok(Decoded(s + d.body, d.next))
  }

  // ---- the writer

  const CRLF: seq<octet> := [CR, LF]

  function Chunk(c: seq<octet>): seq<octet> { Hex(|c|) + CRLF + c + (if c == [] then [] else CRLF) }

  function Framed(chunks: seq<seq<octet>>): seq<octet> {
    if chunks == [] then [] else Chunk(chunks[0]) + Framed(chunks[1..])
  }

  /** All chunks and the last, empty one. The trailer section follows. */
  function Written(chunks: seq<seq<octet>>): seq<octet> { Framed(chunks) + Chunk([]) }

  function Joined(chunks: seq<seq<octet>>): seq<octet> {
    if chunks == [] then [] else chunks[0] + Joined(chunks[1..])
  }

  /** Chunks that the writer makes, and whose sizes the reader takes. */
  ghost predicate Sized(chunks: seq<seq<octet>>) {
    forall i :: 0 <= i < |chunks| ==> 0 < |chunks[i]| < Pow16(MaxHexChars)
  }

  lemma {:induction false} AddChunk(chunks: seq<seq<octet>>, c: seq<octet>)
    ensures Framed(chunks + [c]) == Framed(chunks) + Chunk(c) && Joined(chunks + [c]) == Joined(chunks) + c
  {
    hide Chunk;
    if chunks == [] {
      assert [] + [c] == [c] && [c][1..] == [];
      assert Chunk(c) + [] == Chunk(c) && c + [] == c;
    } else {
      assert (chunks + [c])[1..] == chunks[1..] + [c];
      AddChunk(chunks[1..], c);
      assert chunks[0] + (Joined(chunks[1..]) + c) == Joined(chunks) + c;
      assert Chunk(chunks[0]) + (Framed(chunks[1..]) + Chunk(c)) == Framed(chunks) + Chunk(c);
    }
  }

  lemma HexEndIs(b: seq<octet>, i: nat, j: nat)
    requires i <= j <= |b| && (j < |b| ==> !IsHex(b[j])) && forall k :: i <= k < j ==> IsHex(b[k])
    ensures HexEnd(b, i) == j
  {
  }

  /** s stands in b at i. */
  predicate Has(b: seq<octet>, i: nat, s: seq<octet>) { i + |s| <= |b| && b[i..i + |s|] == s }

  lemma HasParts(b: seq<octet>, i: nat, s: seq<octet>, t: seq<octet>)
    requires Has(b, i, s + t)
    ensures Has(b, i, s) && Has(b, i + |s|, t)
  {
    assert b[i..i + |s|] == b[i..i + |s + t|][..|s|];
    assert b[i + |s|..i + |s| + |t|] == b[i..i + |s + t|][|s|..];
  }

  lemma HasCrLf(b: seq<octet>, i: nat)
    requires Has(b, i, CRLF)
    ensures CrLfAt(b, i)
  {
    assert b[i..i + 2][0] == CR && b[i..i + 2][1] == LF;
  }

  /** A size line reads back exactly when it has at most fifteen digits. */
  lemma SizeRoundTrip(b: seq<octet>, i: nat, n: nat)
    requires Has(b, i, Hex(n) + CRLF)
    ensures SizeAt(b, i) == if n < Pow16(MaxHexChars) then Ok(Size(n, i + |Hex(n)| + 2)) else Err(NumberTooLarge)
  {
    hide Pow16, Hex, HexValue, HexEnd;
    HasParts(b, i, Hex(n), CRLF);
    var j := i + |Hex(n)|;
    HasCrLf(b, j);
    forall k | i <= k < j ensures IsHex(b[k]) { assert b[k] == b[i..j][k - i]; }
    HexEndIs(b, i, j);
    HexRoundTrip(n);
    HexLength(n, MaxHexChars);
  }

  // ---- size lines that are not the writer's own

  /** Digits are those of either case; the writer's are lower-case. */
  lemma DigitIs(k: nat)
    requires k < 16
    ensures Digit(k) == Code(LowerHex[k])
  {
    HexDigits(k);
  }

  lemma NumberAt(b: seq<octet>, i: nat, n: nat)
    requires Has(b, i, Hex(n)) && n < Pow16(MaxHexChars) && i + |Hex(n)| < |b| && !IsHex(b[i + |Hex(n)|])
    ensures HexAt(b, i) == Ok(Size(n, i + |Hex(n)|))
  {
    hide Pow16, Hex, HexValue, HexEnd;
    var j := i + |Hex(n)|;
    forall k | i <= k < j ensures IsHex(b[k]) { assert b[k] == b[i..j][k - i]; }
    HexEndIs(b, i, j);
    HexRoundTrip(n);
    HexLength(n, MaxHexChars);
  }

  lemma {:induction false} SkipExtension(b: seq<octet>, i: nat, k: nat, ows: bool)
    requires i <= k <= |b| && forall j :: i <= j < k ==> b[j] != CR && b[j] != LF
    ensures LineEnd(b, i, ows, true) == LineEnd(b, k, ows, true)
    decreases k - i
  {
    if i < k { SkipExtension(b, i + 1, k, ows); }
  }

  lemma {:induction false} SkipBlanks(b: seq<octet>, i: nat, k: nat, ows: bool)
    requires i <= k <= |b| && forall j :: i <= j < k ==> b[j] == SP || b[j] == TAB
    ensures LineEnd(b, i, ows, false) == LineEnd(b, k, ows || i < k, false)
    decreases k - i
  {
    if i < k { SkipBlanks(b, i + 1, k, true); }
  }

  lemma NoHexMarks()
    ensures !IsHex(SEMI) && !IsHex(CR) && !IsHex(LF) && !IsHex(SP) && !IsHex(TAB)
  {
  }

  /** A size with an extension is that size: anything behind a semicolon up to the CRLF is passed over. */
  lemma ExtensionReads(b: seq<octet>, i: nat, n: nat, ext: seq<octet>)
    requires Has(b, i, Hex(n) + ([SEMI] + ext + CRLF)) && n < Pow16(MaxHexChars) && CR !in ext && LF !in ext
    ensures SizeAt(b, i) == Ok(Size(n, i + |Hex(n)| + 1 + |ext| + 2))
  {
    hide Pow16, Hex, HexAt;
    HasParts(b, i, Hex(n), [SEMI] + ext + CRLF);
    var j := i + |Hex(n)|;
    HasParts(b, j, [SEMI] + ext, CRLF);
    HasParts(b, j, [SEMI], ext);
    assert b[j] == b[j..j + 1][0] == SEMI;
    var k := j + 1 + |ext|;
    HasCrLf(b, k);
    forall x | j + 1 <= x < k ensures b[x] != CR && b[x] != LF { assert b[x] == b[j + 1..k][x - j - 1]; }
    NoHexMarks();
    NumberAt(b, i, n);
    SkipExtension(b, j + 1, k, false);
  }

  /** Blanks may stand between a size and its CRLF. */
  lemma BlanksRead(b: seq<octet>, i: nat, n: nat, ws: seq<octet>)
    requires Has(b, i, Hex(n) + (ws + CRLF)) && n < Pow16(MaxHexChars) && forall c :: c in ws ==> c == SP || c == TAB
    ensures SizeAt(b, i) == Ok(Size(n, i + |Hex(n)| + |ws| + 2))
  {
    hide Pow16, Hex, HexAt;
    HasParts(b, i, Hex(n), ws + CRLF);
    var j := i + |Hex(n)|;
    HasParts(b, j, ws, CRLF);
    var k := j + |ws|;
    HasCrLf(b, k);
    forall x | j <= x < k ensures b[x] == SP || b[x] == TAB {
      assert b[x] == b[j..k][x - j] && ws[x - j] in ws;
    }
    NoHexMarks();
    NumberAt(b, i, n);
    SkipBlanks(b, j, k, false);
  }

  /** Behind a size and any blanks nothing else may stand, and a semicolon only without blanks. */
  lemma OtherwiseFails(b: seq<octet>, i: nat, n: nat, ws: seq<octet>, c: octet)
    requires Has(b, i, Hex(n) + (ws + [c])) && n < Pow16(MaxHexChars) && forall x :: x in ws ==> x == SP || x == TAB
    requires !IsHex(c) && c != SP && c != TAB && c != CR && (c == SEMI ==> ws != [])
    ensures SizeAt(b, i) == Err(BrokenChunk)
  {
    hide Pow16, Hex, HexAt;
    HasParts(b, i, Hex(n), ws + [c]);
    var j := i + |Hex(n)|;
    HasParts(b, j, ws, [c]);
    var k := j + |ws|;
    assert b[k] == b[k..k + 1][0] == c;
    forall x | j <= x < k ensures b[x] == SP || b[x] == TAB {
      assert b[x] == b[j..k][x - j] && ws[x - j] in ws;
    }
    NoHexMarks();
    NumberAt(b, i, n);
    SkipBlanks(b, j, k, false);
  }

  lemma ChunkReads(b: seq<octet>, i: nat, c: seq<octet>)
    requires Has(b, i, Chunk(c)) && 0 < |c| < Pow16(MaxHexChars)
    ensures Body(b, i) == Prepend(c, Body(b, i + |Chunk(c)|))
  {
    hide Pow16, Hex, SizeAt;
    var j := i + |Hex(|c|)| + 2;
    assert Chunk(c) == (Hex(|c|) + CRLF) + (c + CRLF);
    HasParts(b, i, Hex(|c|) + CRLF, c + CRLF);
    SizeRoundTrip(b, i, |c|);
    HasParts(b, j, c, CRLF);
    HasCrLf(b, j + |c|);
    assert Body(b, i) == InChunk(b, j, |c|);
  }

  /** The decoder gives back what was written, whatever follows it. */
  lemma {:induction false} DecodeWritten(b: seq<octet>, i: nat, chunks: seq<seq<octet>>)
    requires Has(b, i, Written(chunks)) && Sized(chunks)
    ensures Body(b, i) == Ok(Decoded(Joined(chunks), i + |Written(chunks)|))
    decreases |chunks|
  {
    hide Pow16, SizeAt, InChunk;
    if chunks == [] {
      assert Written(chunks) == Hex(0) + CRLF;
      SizeRoundTrip(b, i, 0);
    } else {
      assert Written(chunks) == Chunk(chunks[0]) + Written(chunks[1..]);
      HasParts(b, i, Chunk(chunks[0]), Written(chunks[1..]));
      ChunkReads(b, i, chunks[0]);
      DecodeWritten(b, i + |Chunk(chunks[0])|, chunks[1..]);
    }
  }

  /** Whole chunks with nothing behind them are told apart from every other body. */
  lemma {:induction false} CutBetweenChunks(b: seq<octet>, i: nat, chunks: seq<seq<octet>>)
    requires Has(b, i, Framed(chunks)) && i + |Framed(chunks)| == |b| && Sized(chunks)
    ensures Body(b, i) == Err(EndOfInput)
    decreases |chunks|
  {
    hide Pow16, Body, Chunk;
    NothingLeft(b);
    if chunks != [] {
      HasParts(b, i, Chunk(chunks[0]), Framed(chunks[1..]));
      ChunkReads(b, i, chunks[0]);
      CutBetweenChunks(b, i + |Chunk(chunks[0])|, chunks[1..]);
    }
  }

  lemma NothingLeft(b: seq<octet>)
    ensures Body(b, |b|) == Err(EndOfInput)
  {
  }

  /** A chunk of 16^15 bytes or more is written, but no reader takes it. */
  lemma OversizedChunkFails(b: seq<octet>, i: nat, c: seq<octet>)
    requires Has(b, i, Chunk(c)) && |c| >= Pow16(MaxHexChars)
    ensures Body(b, i) == Err(NumberTooLarge)
  {
    hide Pow16, Hex, SizeAt, InChunk;
    assert Chunk(c) == (Hex(|c|) + CRLF) + (c + (if c == [] then [] else CRLF));
    HasParts(b, i, Hex(|c|) + CRLF, c + (if c == [] then [] else CRLF));
    SizeRoundTrip(b, i, |c|);
  }
}
