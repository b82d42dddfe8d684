/** A body that is read as a stream (fasthttp/streaming.go:17-161), and what the server does with
    the part of it that the handler has not read (fasthttp/server.go:2793-2862). */
module RequestStreams {
  import opened Common
  import opened Octets
  import opened Chunked
  import opened ChunkStreams
  import opened ByteForms
  import Swar
  import HeaderBlock
  import HeaderReads
  import Trailers

  const ChunkedLength: int := -1
  const IdentityLength: int := -2

  /** The buffer of io.Discard. */
  const DiscardBuffer: nat := 8192

  datatype ReadResult = More | EOF | Fail(e: Error)

  // ---- what the bytes of a connection mean to a stream

  /** Whole: the body, where it ends, and its trailers. Cut: the connection ends inside the body and
      the stream takes that for its end; `end` is where it stops. Broken: a read fails. */
  datatype Outcome =
    | Whole(body: seq<octet>, end: nat, trailers: seq<Trailers.KV>) | Cut(body: seq<octet>, end: nat) | Broken

  function Add(s: seq<octet>, o: Outcome): Outcome {
    if o.Broken? then o else o.(body := s + o.body)
  }

  /** A body of which `left` bytes are still to come, or all there are; pre are in memory already. */
  function Fixed(pre: seq<octet>, b: seq<octet>, pos: nat, left: Option<nat>, strict: bool): Outcome
    requires pos <= |b| && (left.Some? ==> |pre| <= left.value)
  {
    if left.None? then Whole(pre + b[pos..], |b|, [])
    else
      var end := pos + left.value - |pre|;
      if end <= |b| then Whole(pre + b[pos..end], end, [])
      else if strict then Broken
      else Cut(pre + b[pos..], |b|)
  }

  /** Behind the last chunk: the trailer section at p. */
  function TrailerAt(b: seq<octet>, p: nat, disable: bool): Outcome
    requires p <= |b|
  {
    match Trailers.TrailerSection(ToBytes(b[p..]), disable)
    case Done(fields, n) => Whole([], p + n, fields)
    case Wait => Cut([], p)
    case Fail(_) => Broken
  }

  /** A chunked body from the size line at i on. */
  function Stream(b: seq<octet>, i: nat, disable: bool): Outcome
    requires i <= |b|
    decreases |b| - i
  {
    match SizeAt(b, i)
    case Err(e) => if e == EndOfInput then Cut([], i) else Broken
    case Ok(s) => if s.n == 0 then TrailerAt(b, s.next, disable) else InStream(b, s.next, s.n, disable)
  }

  /** And from inside a chunk of which `left` bytes are still to come. */
  function InStream(b: seq<octet>, i: nat, left: nat, disable: bool): Outcome
    requires i <= |b| && left > 0
    decreases |b| - i, 1
  {
    if i + left + 2 <= |b| && CrLfAt(b, i + left) then Add(b[i..i + left], Stream(b, i + left + 2, disable))
    else Broken
  }

  /** The stream gives the body of the buffered decoder, and then looks at the trailer section; where
      that decoder fails the stream fails too, but for a connection that ends between two chunks. */
  lemma {:induction false} StreamIsBody(b: seq<octet>, i: nat, disable: bool)
    requires i <= |b|
    ensures match Body(b, i)
            case Ok(d) => Stream(b, i, disable) == Add(d.body, TrailerAt(b, d.next, disable))
            case Err(EndOfInput) => Stream(b, i, disable).Cut? && Stream(b, i, disable).end == |b|
            case Err(_) => Stream(b, i, disable).Broken?
    decreases |b| - i
  {
    hide SizeAt, TrailerAt;
    EndsAtEnd(b, i);
    match SizeAt(b, i)
    case Err(_) =>
    case Ok(s) =>
      if s.n == 0 {
        AddNone(TrailerAt(b, s.next, disable));
      } else if s.next + s.n + 2 <= |b| && CrLfAt(b, s.next + s.n) {
        var next, data := s.next + s.n + 2, b[s.next..s.next + s.n];
        StreamIsBody(b, next, disable);
        assert Body(b, i) == Prepend(data, Body(b, next));
        assert Stream(b, i, disable) == Add(data, Stream(b, next, disable));
        hide Body, Stream, InStream, InChunk;
        if Body(b, next).Ok? {
          AddTwice(data, Body(b, next).value.body, TrailerAt(b, Body(b, next).value.next, disable));
        }
      }
  }

  lemma EndsAtEnd(b: seq<octet>, i: nat)
    requires i <= |b|
    ensures SizeAt(b, i) == Err(EndOfInput) <==> i == |b|
  {
  }

  lemma AddNone(o: Outcome)
    ensures Add([], o) == o
  {
    if !o.Broken? { assert [] + o.body == o.body; }
  }

  lemma AddTwice(s: seq<octet>, t: seq<octet>, o: Outcome)
    ensures Add(s, Add(t, o)) == Add(s + t, o)
  {
    if !o.Broken? { assert s + (t + o.body) == s + t + o.body; }
  }

  /** Stream, one chunk at a time. */
  lemma StreamStep(b: seq<octet>, i: nat, disable: bool)
    requires i <= |b|
    ensures SizeAt(b, i).Err? ==>
      Stream(b, i, disable) == if SizeAt(b, i).error == EndOfInput then Cut([], i) else Broken
    ensures SizeAt(b, i).Ok? && SizeAt(b, i).value.n == 0 ==>
      Stream(b, i, disable) == TrailerAt(b, SizeAt(b, i).value.next, disable)
    ensures SizeAt(b, i).Ok? && SizeAt(b, i).value.n > 0 ==>
      Stream(b, i, disable) == InStream(b, SizeAt(b, i).value.next, SizeAt(b, i).value.n, disable)
  {
    hide SizeAt, TrailerAt, InStream;
  }

  /** Reading part of a chunk leaves the rest of it. */
  lemma ChunkSplits(b: seq<octet>, p: nat, left: nat, k: nat, disable: bool)
    requires p + k <= |b| && k <= left && left > 0
    ensures k < left ==> InStream(b, p, left, disable) == Add(b[p..p + k], InStream(b, p + k, left - k, disable))
    ensures k == left && CrLfAt(b, p + k) ==>
      InStream(b, p, left, disable) == Add(b[p..p + k], Stream(b, p + k + 2, disable))
    ensures k == left && !CrLfAt(b, p + k) ==> InStream(b, p, left, disable).Broken?
    ensures p + k == |b| ==> InStream(b, p, left, disable).Broken?
  {
    hide Stream;
    if k < left && p + left + 2 <= |b| && CrLfAt(b, p + left) {
      assert b[p..p + left] == b[p..p + k] + b[p + k..p + left];
      AddTwice(b[p..p + k], b[p + k..p + left], Stream(b, p + left + 2, disable));
    }
  }

  // ---- the stream

  /** requestStream */
  class RequestStream {
    const reader: BufReader
    const header: Trailers.Header
    const prefetched: seq<octet>
    const contentLength: int
    const strictEOF: bool
    const disableNormalizing: bool
    var chunkLeft: nat
    var totalBytesRead: nat
    var eof: bool
    var failed: bool

    ghost predicate Valid()
      reads this, reader, header
    {
      Sound() && header.Valid()
    }

    ghost predicate Sound()
      reads this, reader
    {
      && reader.Valid() && contentLength >= IdentityLength
      && (contentLength < 0 ==> prefetched == [])
      && (contentLength >= 0 ==> |prefetched| <= contentLength && totalBytesRead <= contentLength)
      && totalBytesRead <= |prefetched| + reader.pos
    }

    ghost function Prefetched(): seq<octet>
      reads this
    {
      if totalBytesRead < |prefetched| then prefetched[totalBytesRead..] else []
    }

    ghost function Left(): Option<nat>
      reads this
      requires contentLength >= 0 ==> totalBytesRead <= contentLength
    {
      if contentLength >= 0 then Some(contentLength - totalBytesRead) else None
    }

    /** What the bytes from here on mean. */
    ghost function Rest(): Outcome
      reads this, reader
      requires Sound()
    {
      if contentLength != ChunkedLength then Fixed(Prefetched(), reader.b, reader.pos, Left(), strictEOF)
      else if chunkLeft > 0 then InStream(reader.b, reader.pos, chunkLeft, disableNormalizing)
      else Stream(reader.b, reader.pos, disableNormalizing)
    }

    /** acquireRequestStream and acquireResponseStream */
    constructor (r: BufReader, h: Trailers.Header, pre: seq<octet>, length: int, strict: bool, disable: bool)
      requires r.Valid() && h.Valid() && length >= IdentityLength
      requires if length < 0 then pre == [] else |pre| <= length
      ensures reader == r && header == h && prefetched == pre && contentLength == length && strictEOF == strict
      ensures disableNormalizing == disable
      ensures Valid() && !eof && !failed && totalBytesRead == 0 && chunkLeft == 0
    {
      reader, header, prefetched, contentLength, strictEOF := r, h, pre, length, strict;
      disableNormalizing := disable;
      chunkLeft, totalBytesRead, eof, failed := 0, 0, false, false;
    }

    /** Up to `want` bytes of the current chunk, and its CRLF if that is all of it. */
    method ReadData(want: nat) returns (data: seq<octet>, res: ReadResult)
      requires Sound() && !eof && contentLength == ChunkedLength && chunkLeft > 0
      modifies this, reader`pos
      ensures Sound() && !eof && |data| <= want && totalBytesRead == old(totalBytesRead) + |data|
      ensures failed == old(failed)
      ensures res == More ==> old(Rest()) == Add(data, Rest()) && (want > 0 ==> data != [])
      ensures res != More ==> res.Fail? && res != Fail(NoNumber) && old(Rest()).Broken?
    {
      hide Stream, InStream, CrLfAt;
      ghost var p, left := reader.pos, chunkLeft;
      var n := if chunkLeft < want then chunkLeft else want;
      var end;
      data, end := reader.Read(n);
      ChunkSplits(reader.b, p, left, |data|, disableNormalizing);
      totalBytesRead := totalBytesRead + |data|;
      chunkLeft := chunkLeft - |data|;
      if end { return data, Fail(UnexpectedEOF); }
      if chunkLeft == 0 {
        var ok := ReadCrLf(reader);
        if !ok { return data, Fail(BrokenChunk); }
      }
      res := More;
    }

    /** From the bytes in memory. */
    method ReadPrefetched(want: nat) returns (data: seq<octet>, res: ReadResult)
      requires Sound() && !eof && contentLength != ChunkedLength && totalBytesRead < |prefetched|
      modifies this
      ensures Sound() && |data| <= want && totalBytesRead == old(totalBytesRead) + |data| && failed == old(failed)
      ensures res == More ==> !eof && old(Rest()) == Add(data, Rest()) && (want > 0 ==> data != [])
      ensures res == EOF ==> eof && EndedAt(old(Rest()), data, reader.pos)
      ensures !res.Fail?
    {
      hide Fixed;
      ghost var pre, left := Prefetched(), contentLength - totalBytesRead;
      var n := |prefetched| - totalBytesRead;
      if want < n { n := want; }
      data := prefetched[totalBytesRead..totalBytesRead + n];
      totalBytesRead := totalBytesRead + n;
      assert pre == data + Prefetched();
      FixedSplits(data, Prefetched(), reader.b, reader.pos, left, strictEOF);
      if totalBytesRead == contentLength {
        FixedDone(data, reader.b, reader.pos, strictEOF);
        eof := true;
        return data, EOF;
      }
      return data, More;
    }

    /** From the connection. */
    method ReadWire(want: nat) returns (data: seq<octet>, res: ReadResult)
      requires Sound() && !eof && contentLength != ChunkedLength && |prefetched| <= totalBytesRead != contentLength
      modifies this, reader`pos
      ensures Sound() && |data| <= want && totalBytesRead == old(totalBytesRead) + |data| && failed == old(failed)
      ensures res == More ==> !eof && old(Rest()) == Add(data, Rest()) && (want > 0 ==> data != [])
      ensures res == EOF ==> eof && EndedAt(old(Rest()), data, reader.pos)
      ensures res.Fail? ==> !eof && old(Rest()).Broken? && res == Fail(UnexpectedEOF)
    {
      hide Fixed;
      ghost var pos, was := reader.pos, Left();
      var n, end := want, false;
      if contentLength >= 0 && contentLength - totalBytesRead < want { n := contentLength - totalBytesRead; }
      data, end := reader.Read(n);
      totalBytesRead := totalBytesRead + |data|;
      FixedMoves(reader.b, pos, |data|, was, strictEOF);
      if end {
        FixedEnd(data, reader.b, Left(), strictEOF);
        if strictEOF && contentLength >= 0 && totalBytesRead < contentLength { return data, Fail(UnexpectedEOF); }
        eof := true;
        return data, EOF;
      }
      if totalBytesRead == contentLength {
        FixedDone(data, reader.b, reader.pos, strictEOF);
        eof := true;
        return data, EOF;
      }
      res := More;
    }

    /** A body of known length, or up to the end of the connection. */
    method ReadFixed(want: nat) returns (data: seq<octet>, res: ReadResult)
      requires Sound() && !eof && contentLength != ChunkedLength
      modifies this, reader`pos
      ensures Sound() && |data| <= want && totalBytesRead == old(totalBytesRead) + |data| && failed == old(failed)
      ensures res == More ==> !eof && old(Rest()) == Add(data, Rest()) && (want > 0 ==> data != [])
      ensures res == EOF ==> eof && EndedAt(old(Rest()), data, reader.pos)
      ensures res.Fail? ==> !eof && old(Rest()).Broken? && res == Fail(UnexpectedEOF)
    {
      hide Fixed;
      if totalBytesRead == contentLength {
        FixedDone([], reader.b, reader.pos, strictEOF);
        eof := true;
        return [], EOF;
      }
      if |prefetched| > totalBytesRead {
        data, res := ReadPrefetched(want);
      } else {
        data, res := ReadWire(want);
      }
    }

    /** The trailer section behind the last chunk. If the connection ends inside it, that is the end
        of the body too, and the bytes of the section stay where they are. A malformed section may
        have been rewritten in the buffer. */
    method ReadTrailerSection() returns (ok: bool)
      requires Sound() && header.Valid()
      modifies reader, header`trailerH, header`trailer
      ensures Sound() && header.Valid() && |reader.b| == |old(reader.b)|
      ensures ok == !old(TrailerAt(reader.b, reader.pos, disableNormalizing)).Broken?
      ensures ok ==> reader.b == old(reader.b)
      ensures ok ==>
        header.trailerH == old(header.trailerH) + Fields(old(TrailerAt(reader.b, reader.pos, disableNormalizing)))
      ensures ok ==> EndedAt(old(TrailerAt(reader.b, reader.pos, disableNormalizing)), [], reader.pos)
      ensures !ok ==> reader.pos == old(reader.pos) && header.trailerH == old(header.trailerH)
    {
      hide Trailers.TrailerSection, Trailers.AtEnd, Trailers.KeysOf, TrailerAt, ToBytes, ToOctets, Distinct, Elems;
      hide HeaderReads.Concat;
      var bytes := ToBytes(reader.b[reader.pos..]);
      OneChunk(bytes);
      TrailerIs(reader.b, reader.pos, disableNormalizing);
      var res, left := header.ReadTrailer([bytes], disableNormalizing);
      if res.SectionBad? {
        var after := reader.pos + |left|;
        reader.b := reader.b[..reader.pos] + ToOctets(left) + reader.b[after..];
        return false;
      }
      if res.SectionRead? { reader.pos := reader.pos + res.n; }
      return true;
    }

    method ReadChunked(want: nat) returns (data: seq<octet>, res: ReadResult)
      requires Valid() && !eof && contentLength == ChunkedLength
      modifies this, reader, header`trailerH, header`trailer
      ensures Valid() && |data| <= want && totalBytesRead == old(totalBytesRead) + |data| && failed == old(failed)
      ensures |reader.b| == |old(reader.b)| && (!res.Fail? ==> reader.b == old(reader.b))
      ensures res == More ==> !eof && old(Rest()) == Add(data, Rest()) && (want > 0 ==> data != [])
      ensures res == EOF ==> EndedAt(old(Rest()), data, reader.pos)
      ensures res == EOF && !eof ==> Rest() == old(Rest()) && old(Rest()).Cut? && data == []
      ensures res.Fail? ==> !eof && old(Rest()).Broken?
      ensures header.trailerH == old(header.trailerH) + if res == EOF then Fields(old(Rest())) else []
      ensures old(NoDigit()) ==> res == Fail(NoNumber)
      ensures res == Fail(NoNumber) ==>
        reader.b == old(reader.b) && reader.pos == old(reader.pos) + 1 && chunkLeft == 0 && data == []
    {
      hide Stream, InStream, SizeAt, TrailerAt;
      if chunkLeft == 0 {
        StreamStep(reader.b, reader.pos, disableNormalizing);
        var size := ParseChunkSize(reader);
        if size == Err(EndOfInput) { return [], EOF; }
        if size.Err? { return [], Fail(size.error); }
        if size.value == 0 {
          var ok := ReadTrailerSection();
          if !ok { return [], Fail(BrokenChunk); }
          eof := true;
          return [], EOF;
        }
        chunkLeft := size.value;
      }
      data, res := ReadData(want);
    }

    /** A chunk would start here, and the byte is no digit. */
    ghost predicate NoDigit()
      reads this, reader
      requires reader.Valid()
    {
      !eof && contentLength == ChunkedLength && chunkLeft == 0 && SizeAt(reader.b, reader.pos) == Err(NoNumber)
    }

    /** read, over a body of any framing. It fails only if the body is broken. */
    method Read(want: nat) returns (data: seq<octet>, res: ReadResult)
      requires Valid()
      modifies this, reader, header`trailerH, header`trailer
      ensures Valid() && |data| <= want && totalBytesRead == old(totalBytesRead) + |data|
      ensures |reader.b| == |old(reader.b)| && (!res.Fail? ==> reader.b == old(reader.b))
      ensures failed == (old(failed) || res.Fail?)
      ensures old(eof) ==> res == EOF && eof && data == [] && reader.pos == old(reader.pos)
      ensures !old(eof) && res == More ==> !eof && old(Rest()) == Add(data, Rest()) && (want > 0 ==> data != [])
      ensures !old(eof) && res == EOF ==> EndedAt(old(Rest()), data, reader.pos)
      ensures res == EOF && !eof ==>
        Rest() == old(Rest()) && old(Rest()).Cut? && data == [] && contentLength == ChunkedLength
      ensures res.Fail? ==> !eof && old(Rest()).Broken?
      ensures header.trailerH == old(header.trailerH) + if res == EOF && !old(eof) then Fields(old(Rest())) else []
      ensures old(NoDigit()) ==> res == Fail(NoNumber)
      ensures res == Fail(NoNumber) ==>
        reader.b == old(reader.b) && reader.pos == old(reader.pos) + 1 && chunkLeft == 0 && data == []
    {
      hide Stream, InStream, Fixed;
      if eof { return [], EOF; }
      if contentLength == ChunkedLength {
        data, res := ReadChunked(want);
      } else {
        data, res := ReadFixed(want);
        assert Fields(old(Rest())) == [] by { FixedHasNone(this); }
      }
      if res.Fail? { failed := true; }
    }

    /** The part of a body that was not read yet is what is left of it; behind a failed read nothing
        is known but that the body was broken. */
    ghost predicate InLine(all: Outcome, got: seq<octet>)
      reads this, reader
      requires Sound()
    {
      if failed then all.Broken?
      else if eof then EndedAt(all, got, reader.pos)
      else all == Add(got, Rest())
    }

    /** A Read by anybody keeps this. */
    method ReadInLine(want: nat, ghost all: Outcome, ghost got: seq<octet>) returns (data: seq<octet>, res: ReadResult)
      requires Valid() && InLine(all, got)
      modifies this, reader, header`trailerH, header`trailer
      ensures Valid() && InLine(all, got + data) && |reader.b| == |old(reader.b)|
      ensures totalBytesRead == old(totalBytesRead) + |data| && failed == (old(failed) || res.Fail?)
      ensures old(NoDigit()) ==> res.Fail? && OneOn(old(reader.b), old(reader.pos))
    {
      hide Stream, InStream, Fixed, SizeAt;
      data, res := Read(want);
      AddTwice(got, data, Rest());
      assert got + [] == got;
    }

    /** The reader has gone on by one byte, to where a chunk may start. */
    ghost predicate OneOn(b: seq<octet>, pos: nat)
      reads this, reader
    {
      reader.b == b && reader.pos == pos + 1 && chunkLeft == 0 && !eof
    }

    /** Reads of any sizes, whatever comes of them. */
    method ReadEach(sizes: seq<nat>, ghost all: Outcome, ghost got: seq<octet>) returns (out: seq<octet>, error: bool)
      requires Valid() && InLine(all, got)
      modifies this, reader, header`trailerH, header`trailer
      ensures Valid() && InLine(all, got + out) && |reader.b| == |old(reader.b)|
      ensures totalBytesRead == old(totalBytesRead) + |out| && failed == (old(failed) || error)
      ensures sizes == [] ==> !error && reader.b == old(reader.b) && reader.pos == old(reader.pos) && eof == old(eof)
      ensures sizes == [] ==> chunkLeft == old(chunkLeft)
      ensures |sizes| == 1 && old(NoDigit()) ==> OneOn(old(reader.b), old(reader.pos)) && error
    {
      hide InLine, SizeAt;
      out, error := [], false;
      assert got + out == got;
      for i := 0 to |sizes|
        invariant Valid() && InLine(all, got + out) && |reader.b| == |old(reader.b)|
        invariant totalBytesRead == old(totalBytesRead) + |out| && failed == (old(failed) || error)
        invariant i == 0 ==> !error && reader.b == old(reader.b) && reader.pos == old(reader.pos) && eof == old(eof)
        invariant i == 0 ==> chunkLeft == old(chunkLeft)
        invariant i == 1 && old(NoDigit()) ==> OneOn(old(reader.b), old(reader.pos)) && error
      {
        var data, res := ReadInLine(sizes[i], all, got + out);
        assert got + out + data == got + (out + data);
        out := out + data;
        error := error || res.Fail?;
      }
    }

    /** truncated: a body of known length ended early. */
    predicate Truncated()
      reads this
    {
      eof && contentLength >= 0 && totalBytesRead < contentLength
    }

    /** bodyOverflows: more than limit bytes of a body of known length were not read. */
    predicate BodyOverflows(limit: nat)
      reads this
    {
      contentLength >= 0 && contentLength - totalBytesRead > limit
    }

    /** discard: reads to the end of the body, unless it is broken or more than limit bytes are left. */
    method Discard(limit: nat) returns (ok: bool)
      requires Valid()
      modifies this, reader, header`trailerH, header`trailer
      ensures Valid() && |reader.b| == |old(reader.b)| && (old(failed) ==> failed)
      ensures !old(eof) ==> (ok <==> !old(Rest()).Broken? && |old(Rest()).body| <= limit)
      ensures !old(eof) && ok ==> reader.pos == old(Rest()).end
      ensures old(eof) ==> ok && reader.pos == old(reader.pos)
      ensures failed ==> old(failed) || (!old(eof) && old(Rest()).Broken?)
    {
      hide Stream, InStream, Fixed;
      if eof { return true; }
      ghost var all, got := Rest(), [];
      AddNone(all);
      var written := 0;
      while written <= limit
        invariant Valid() && !eof && failed == old(failed) && |reader.b| == |old(reader.b)|
        invariant all == Add(got, Rest()) && written == |got| <= limit + 1
        decreases limit + 1 - written
      {
        var want := limit + 1 - written;
        if want > DiscardBuffer { want := DiscardBuffer; }
        var data, res := Read(want);
        if res == EOF { return written + |data| <= limit; }
        if res.Fail? { return false; }
        AddTwice(got, data, Rest());
        got := got + data;
        written := written + |data|;
      }
      return false;
    }
  }

  /** The stream has ended: these were the last bytes, and the reader is at pos. */
  ghost predicate EndedAt(o: Outcome, data: seq<octet>, pos: nat) { !o.Broken? && o.body == data && o.end == pos }

  function Fields(o: Outcome): seq<Trailers.KV> { if o.Whole? then o.trailers else [] }

  /** What ReadTrailer makes of the section. */
  lemma TrailerIs(b: seq<octet>, p: nat, disable: bool)
    requires p <= |b|
    ensures var res := Trailers.AtEnd(Trailers.TrailerSection(ToBytes(b[p..]), disable));
      && (res.SectionRead? ==> TrailerAt(b, p, disable) == Whole([], p + res.n, res.fields) && p + res.n <= |b|)
      && (res.EndOfFile? ==> TrailerAt(b, p, disable) == Cut([], p))
      && (res.SectionBad? ==> TrailerAt(b, p, disable) == Broken)
      && !res.SectionOpen?
  {
    hide Trailers.TrailerSection;
  }

  lemma OneChunk(bytes: seq<Swar.byte>)
    ensures HeaderReads.Concat([bytes]) == bytes
  {
    assert [bytes][..0] == [];
    assert [] + bytes == bytes;
  }

  twostate lemma FixedHasNone(s: RequestStream)
    requires old(s.Sound()) && s.contentLength != ChunkedLength
    ensures Fields(old(s.Rest())) == []
  {
  }

  /** The reader stands behind the body, or behind the last byte of a connection that ended in it. */
  ghost predicate AtNext(s: RequestStream, all: Outcome)
    reads s, s.reader
  {
    !all.Broken? && s.reader.pos == all.end && (all.Cut? ==> all.end == |s.reader.b|)
  }

  /** Reads of the given sizes from a fresh stream, until one of them reports the end or an error.
      Enough of them report the end exactly when the body is not broken, so also where the connection
      ends between two chunks or in the trailer section; the bytes are those of the body, and its
      trailers are stored once, behind those of the header. */
  method ReadAll(s: RequestStream, sizes: seq<nat>) returns (out: seq<octet>, ended: bool)
    requires s.Valid() && !s.eof && s.totalBytesRead == 0
    modifies s, s.reader, s.header`trailerH, s.header`trailer
    ensures s.Valid() && |out| == s.totalBytesRead
    ensures !old(s.Rest()).Broken? ==> out <= old(s.Rest()).body
    ensures ended ==> EndedAt(old(s.Rest()), out, s.reader.pos)
    ensures s.header.trailerH == old(s.header.trailerH) + if ended then Fields(old(s.Rest())) else []
    ensures (forall i :: 0 <= i < |sizes| ==> sizes[i] > 0) && |sizes| > |s.prefetched| + |s.reader.b| ==>
      (ended <==> !old(s.Rest()).Broken?)
    ensures ended && s.contentLength >= 0 ==> (s.Truncated() <==> old(s.Rest()).Cut?)
  {
    hide Stream, InStream, Fixed;
    out, ended := [], false;
    ghost var all := s.Rest();
    AddNone(all);
    if s.contentLength >= 0 {
      assert s.Prefetched() == s.prefetched;
      FixedLength(s.prefetched, s.reader.b, s.reader.pos, s.contentLength, s.strictEOF);
    }
    for i := 0 to |sizes|
      invariant s.Valid() && !s.eof && |out| == s.totalBytesRead && |s.reader.b| == |old(s.reader.b)|
      invariant all == Add(out, s.Rest()) && s.header.trailerH == old(s.header.trailerH)
      invariant (forall k :: 0 <= k < |sizes| ==> sizes[k] > 0) ==> |out| >= i
    {
      var data, res := s.Read(sizes[i]);
      AddTwice(out, data, s.Rest());
      out := out + data;
      if res != More { return out, res == EOF; }
    }
  }

  /** What the server does with a streamed body: the handler reads some of it, the response may read
      on while it is written, and the rest is discarded. An error of the body ends the writing only if
      the response passes it on. A connection that is kept stands at the next request exactly when
      the body is whole, or was cut with nothing left behind it. A broken body is kept only if the
      response swallows its error, and one that is not broken is kept if it is small. */
  method Serve(s: RequestStream, handler: seq<nat>, response: seq<nat>, passesOn: bool, limit: nat) returns (kept: bool)
    requires s.Valid() && !s.eof && !s.failed && s.totalBytesRead == 0
    modifies s, s.reader, s.header`trailerH, s.header`trailer
    ensures s.Valid() && |s.reader.b| == |old(s.reader.b)|
    ensures s.failed ==> old(s.Rest()).Broken?
    ensures kept ==> (AtNext(s, old(s.Rest())) <==> Clean(old(s.Rest()), |s.reader.b|))
    ensures kept && (passesOn || response == []) ==> !old(s.Rest()).Broken?
    ensures !old(s.Rest()).Broken? && |old(s.Rest()).body| <= limit && s.contentLength <= limit ==> kept
    ensures handler == [] && |response| == 1 && !passesOn && old(s.NoDigit()) && old(Resumes(s, limit)) ==> kept
  {
    hide Stream, InStream, Fixed, SizeAt;
    ghost var all := s.Rest();
    AddNone(all);
    var out, error := s.ReadEach(handler, all, []);
    if s.failed { return false; }
    if response == [] && s.BodyOverflows(limit) { return false; }
    var more;
    more, error := s.ReadEach(response, all, [] + out);
    if error && passesOn { return false; }
    if s.BodyOverflows(limit) { return false; }
    kept := s.Discard(limit);
  }

  /** A caller's condition: the bytes are a whole body, or none are left behind a cut one. */
  ghost predicate Clean(all: Outcome, n: nat) { !all.Broken? && (all.Cut? ==> all.end == n) }

  /** From the next byte on there is a body that is not broken and not over the limit. */
  ghost predicate Resumes(s: RequestStream, limit: nat)
    reads s, s.reader
  {
    && s.reader.pos < |s.reader.b|
    && var o := Stream(s.reader.b, s.reader.pos + 1, s.disableNormalizing); !o.Broken? && |o.body| <= limit
  }

  // ---- bodies as they are written, and cut

  /** What the writer writes streams back, whatever section follows it. */
  lemma WrittenStreams(b: seq<octet>, i: nat, chunks: seq<seq<octet>>, disable: bool)
    requires Has(b, i, Written(chunks)) && Sized(chunks)
    ensures Stream(b, i, disable) == Add(Joined(chunks), TrailerAt(b, i + |Written(chunks)|, disable))
  {
    hide Body, Stream, Written, TrailerAt, Sized;
    DecodeWritten(b, i, chunks);
    StreamIsBody(b, i, disable);
  }

  /** Behind the last chunk: a whole section ends the body with its fields, one that the connection cut
      ends it in front of what has come, and a malformed one breaks it. */
  lemma WrittenOutcome(b: seq<octet>, i: nat, chunks: seq<seq<octet>>, disable: bool)
    requires Has(b, i, Written(chunks)) && Sized(chunks)
    ensures var o, end := Stream(b, i, disable), i + |Written(chunks)|;
      var p := Trailers.TrailerSection(ToBytes(b[end..]), disable);
      && (p.Done? ==> o == Whole(Joined(chunks), end + p.n, p.state))
      && (p.Wait? ==> o == Cut(Joined(chunks), end))
      && (p.Fail? ==> o == Broken)
  {
    hide Stream, Written, Sized, Trailers.TrailerSection, Joined;
    WrittenStreams(b, i, chunks, disable);
    assert Joined(chunks) + [] == Joined(chunks);
  }

  /** A body of known length is the first so many bytes, those in memory first; if there are fewer, it is
      cut, or broken under strictEOF. Without a length it is all there is. */
  lemma FixedIs(pre: seq<octet>, b: seq<octet>, pos: nat, left: nat, strict: bool)
    requires pos <= |b| && |pre| <= left
    ensures var ahead := pre + b[pos..];
      && (left <= |ahead| ==>
            Fixed(pre, b, pos, Some(left), strict) == Whole(ahead[..left], pos + left - |pre|, []))
      && (left > |ahead| ==> Fixed(pre, b, pos, Some(left), strict) == if strict then Broken else Cut(ahead, |b|))
      && Fixed(pre, b, pos, None, strict) == Whole(ahead, |b|, [])
  {
    var ahead := pre + b[pos..];
    if left <= |ahead| { assert ahead[..left] == pre + b[pos..pos + left - |pre|]; }
  }

  lemma ChunkStreamed(b: seq<octet>, i: nat, c: seq<octet>, disable: bool)
    requires Has(b, i, Chunk(c)) && 0 < |c| < Pow16(MaxHexChars)
    ensures Stream(b, i, disable) == Add(c, Stream(b, i + |Chunk(c)|, disable))
  {
    hide Pow16, Hex, SizeAt, TrailerAt;
    var j := i + |Hex(|c|)| + 2;
    assert Chunk(c) == (Hex(|c|) + CRLF) + (c + CRLF);
    HasParts(b, i, Hex(|c|) + CRLF, c + CRLF);
    SizeRoundTrip(b, i, |c|);
    HasParts(b, j, c, CRLF);
    HasCrLf(b, j + |c|);
    assert Stream(b, i, disable) == InStream(b, j, |c|, disable);
  }

  /** Cut between two chunks, such a body streams its chunks and ends. */
  lemma {:induction false} CutBetweenStreams(b: seq<octet>, i: nat, chunks: seq<seq<octet>>, disable: bool)
    requires Has(b, i, Framed(chunks)) && i + |Framed(chunks)| == |b| && Sized(chunks)
    ensures Stream(b, i, disable) == Cut(Joined(chunks), |b|)
    decreases |chunks|
  {
    hide Pow16, Chunk, Stream, SizeAt;
    EndsAtEnd(b, i);
    if chunks == [] {
      StreamStep(b, i, disable);
    } else {
      HasParts(b, i, Chunk(chunks[0]), Framed(chunks[1..]));
      ChunkStreamed(b, i, chunks[0], disable);
      CutBetweenStreams(b, i + |Chunk(chunks[0])|, chunks[1..], disable);
    }
  }

  /** The line that a trailer section begins with has not ended. */
  predicate OpenLine(part: seq<octet>) { LF !in part && (part == [] || (part[0] != SP && part[0] != TAB)) }

  lemma OpenLineWaits(part: seq<octet>, disable: bool)
    requires OpenLine(part)
    ensures Trailers.TrailerSection(ToBytes(part), disable) == HeaderReads.Wait
  {
    NoSuchByte(part);
    hide ToBytes;
    NoLineYet(ToBytes(part), disable);
  }

  lemma NoSuchByte(part: seq<octet>)
    requires OpenLine(part)
    ensures var b := ToBytes(part); HeaderBlock.LF !in b && (b == [] || !HeaderBlock.Blank(b[0]))
  {
    var b := ToBytes(part);
    forall i | 0 <= i < |b| ensures b[i] != HeaderBlock.LF {
      if b[i] == HeaderBlock.LF { LineFeedIs(part[i]); }
    }
    if b != [] {
      if b[0] == HeaderBlock.SP { SpaceIs(part[0]); }
      if b[0] == HeaderBlock.TAB { TabIs(part[0]); }
    }
  }

  lemma NoLineYet(b: seq<Swar.byte>, disable: bool)
    requires HeaderBlock.LF !in b && (b == [] || !HeaderBlock.Blank(b[0]))
    ensures Trailers.TrailerSection(b, disable) == HeaderReads.Wait
  {
  }

  /** Cut in the trailer section, such a body streams all of its chunks and ends in front of what
      has come of the section. */
  lemma CutInTrailer(b: seq<octet>, chunks: seq<seq<octet>>, part: seq<octet>, disable: bool)
    requires b == Written(chunks) + part && Sized(chunks) && OpenLine(part)
    ensures Stream(b, 0, disable) == Cut(Joined(chunks), |b| - |part|)
  {
    hide Written, Sized, Stream, OpenLine, ToBytes, Joined, Trailers.TrailerSection;
    var n := |Written(chunks)|;
    assert b[0..n] == Written(chunks) && b[n..] == part;
    WrittenStreams(b, 0, chunks, disable);
    OpenLineWaits(part, disable);
    assert Joined(chunks) + [] == Joined(chunks);
  }

  /** The last chunk alone, and the last chunk with some of a trailer field: a plain end, in front of
      the field. */
  lemma CutTrailers(disable: bool)
    ensures Stream([48, CR, LF], 0, disable) == Cut([], 3)
    ensures Stream([48, CR, LF, 88, 58, SP, 121], 0, disable) == Cut([], 3)
  {
    hide Stream, TrailerAt;
    LastChunk();
    assert Written([]) + [] == [48, CR, LF];
    CutInTrailer([48, CR, LF], [], [], disable);
    assert Written([]) + [88, 58, SP, 121] == [48, CR, LF, 88, 58, SP, 121];
    CutInTrailer([48, CR, LF, 88, 58, SP, 121], [], [88, 58, SP, 121], disable);
  }

  lemma LastChunk()
    ensures Written([]) == [48, CR, LF] && Joined([]) == [] && Sized([])
  {
    assert Framed([]) == [];
  }

  /** The server keeps a connection that ended in the trailer section of a body, whatever came of the
      section; if anything did, it is what the next request is parsed out of. */
  method TrailerCutKept(part: seq<octet>) returns (s: RequestStream, kept: bool, ghost all: Outcome)
    requires OpenLine(part)
    ensures s.Valid() && kept && !s.failed && all == Cut([], 3) && (AtNext(s, all) <==> part == [])
  {
    hide OpenLine, Stream;
    var r := new BufReader([48, CR, LF] + part);
    var h := new Trailers.Header(None);
    s := new RequestStream(r, h, [], ChunkedLength, false, false);
    LastChunk();
    CutInTrailer(r.b, [], part, false);
    all := s.Rest();
    kept := Serve(s, [], [], true, 0);
  }

  /** The bytes z0 CRLF CRLF: the read that the response makes of the body fails at the z. If the
      response does not pass the error on, the discard that follows finds the last chunk, and the
      connection is kept although no body ended there. */
  method FailureForgotten() returns (s: RequestStream, kept: bool, ghost all: Outcome)
    ensures s.Valid() && kept && all.Broken? && !AtNext(s, all)
  {
    hide Stream, SizeAt;
    var r := new BufReader([122, 48, CR, LF, CR, LF]);
    var h := new Trailers.Header(None);
    s := new RequestStream(r, h, [], ChunkedLength, false, false);
    ForgottenBytes(r.b);
    StreamStep(r.b, 0, false);
    all := s.Rest();
    kept := Serve(s, [], [1], false, 0);
  }

  lemma ForgottenBytes(b: seq<octet>)
    requires b == [122, 48, CR, LF, CR, LF]
    ensures SizeAt(b, 0) == Err(NoNumber) && Stream(b, 1, false) == Whole([], 6, [])
  {
    hide Stream, Written, Joined, Trailers.TrailerSection, ToBytes;
    assert HexAt(b, 0) == Err(NoNumber) by { HexEndIs(b, 0, 0); }
    hide HexAt, SizeAt;
    LastChunk();
    assert b[1..4] == [48, CR, LF];
    WrittenStreams(b, 1, [], false);
    assert b[4..] == [CR, LF];
    BlankLine();
  }

  lemma BlankLine()
    ensures Trailers.TrailerSection(ToBytes([CR, LF]), false) == HeaderReads.Done([], 2)
  {
    var b := ToBytes([CR, LF]);
    assert b[0] == HeaderBlock.CR && b[1] == HeaderBlock.LF;
    hide ToBytes;
    NoFields(b);
  }

  lemma NoFields(b: seq<Swar.byte>)
    requires |b| == 2 && b[0] == HeaderBlock.CR && b[1] == HeaderBlock.LF
    ensures Trailers.TrailerSection(b, false) == HeaderReads.Done([], 2)
  {
  }

  /** A body of known length that has arrived overflows exactly when more of it is left. */
  lemma OverflowExact(s: RequestStream, limit: nat)
    requires s.Sound() && s.contentLength >= 0
    requires s.reader.pos + s.contentLength - s.totalBytesRead - |s.Prefetched()| <= |s.reader.b|
    ensures s.Rest().Whole? && (s.BodyOverflows(limit) <==> |s.Rest().body| > limit)
  {
    var end := s.reader.pos + s.contentLength - s.totalBytesRead - |s.Prefetched()|;
    assert s.Rest().body == s.Prefetched() + s.reader.b[s.reader.pos..end];
  }

  lemma FixedLength(pre: seq<octet>, b: seq<octet>, pos: nat, left: nat, strict: bool)
    requires pos <= |b| && |pre| <= left
    ensures var o := Fixed(pre, b, pos, Some(left), strict);
      && (o.Whole? ==> |o.body| == left)
      && (o.Cut? ==> |o.body| < left)
  {
  }

  lemma FixedDone(data: seq<octet>, b: seq<octet>, pos: nat, strict: bool)
    requires pos <= |b|
    ensures Fixed([], b, pos, Some(0), strict) == Whole([], pos, [])
    ensures Add(data, Fixed([], b, pos, Some(0), strict)) == Whole(data, pos, [])
  {
    assert [] + b[pos..pos] == [];
    assert data + [] == data;
  }

  /** At the end of the connection. */
  lemma FixedEnd(data: seq<octet>, b: seq<octet>, left: Option<nat>, strict: bool)
    ensures Add(data, Fixed([], b, |b|, left, strict)) ==
      if left.None? || left.value == 0 then Whole(data, |b|, [])
      else if strict then Broken
      else Cut(data, |b|)
  {
    assert [] + b[|b|..|b|] == [] + b[|b|..] == [];
    assert data + [] == data;
  }

  /** Bytes taken from the connection. */
  lemma FixedMoves(b: seq<octet>, pos: nat, k: nat, left: Option<nat>, strict: bool)
    requires pos + k <= |b| && (left.Some? ==> k <= left.value)
    ensures Fixed([], b, pos, left, strict) ==
      Add(b[pos..pos + k], Fixed([], b, pos + k, if left.Some? then Some(left.value - k) else None, strict))
  {
    if left.Some? && pos + left.value <= |b| {
      assert [] + b[pos..pos + left.value] == b[pos..pos + k] + ([] + b[pos + k..pos + left.value]);
    } else {
      assert [] + b[pos..] == b[pos..pos + k] + ([] + b[pos + k..]);
    }
  }

  /** Bytes taken from those in memory. */
  lemma FixedSplits(data: seq<octet>, pre: seq<octet>, b: seq<octet>, pos: nat, left: nat, strict: bool)
    requires pos <= |b| && |data + pre| <= left
    ensures Fixed(data + pre, b, pos, Some(left), strict) ==
      Add(data, Fixed(pre, b, pos, Some(left - |data|), strict))
  {
    var end := pos + left - |data + pre|;
    if end <= |b| {
      assert data + pre + b[pos..end] == data + (pre + b[pos..end]);
    } else {
      assert data + pre + b[pos..] == data + (pre + b[pos..]);
    }
  }
}
