/** Header blocks as they are written, section 5 of RFC 9112, and that the scanner reads exactly these fields
    back (fasthttp/headerscanner.go, fasthttp/header.go:2830-2906, 3287-3307). */
module HeaderPrint {
  import opened Common
  import opened Swar
  import opened HeaderBlock
  import opened HeaderReads

  /** A field with its value and the texts of its continuation lines; `bare`: the first line ends in a line
      feed alone. */
  datatype Item = Item(name: seq<byte>, value: seq<byte>, more: seq<seq<byte>>, bare: bool)

  /** Letters, digits and ! # $ % & ' * + - . ^ _ ` | ~ */
  predicate TokenByte(c: byte) {
    || 0x30 <= c <= 0x39 || 0x41 <= c <= 0x5a || 0x61 <= c <= 0x7a
    || c in [0x21, 0x23, 0x24, 0x25, 0x26, 0x27, 0x2a, 0x2b, 0x2d, 0x2e, 0x5e, 0x5f, 0x60, 0x7c, 0x7e]
  }

  /** Anything but a control byte, and the tab. */
  predicate TextByte(c: byte) { (0x20 <= c && c != 0x7f) || c == 9 }

  predicate IsToken(s: seq<byte>) { s != [] && forall i :: 0 <= i < |s| ==> TokenByte(s[i]) }

  predicate IsText(s: seq<byte>) { forall i :: 0 <= i < |s| ==> TextByte(s[i]) }

  /** One line, with no blank at either end. */
  predicate IsLine(s: seq<byte>) {
    LF !in s && (s != [] ==> !Blank(s[0]) && !Blank(s[|s| - 1]) && s[|s| - 1] != CR)
  }

  predicate Proper(f: Item) {
    && IsToken(f.name) && IsLine(f.value)
    && (forall i :: 0 <= i < |f.more| ==> IsLine(f.more[i]) && f.more[i] != [])
    && (f.more != [] ==> f.value != [])
  }

  const CRLF: seq<byte> := [CR, LF]

  function MoreLines(more: seq<seq<byte>>): seq<byte> {
    if more == [] then [] else [SP] + more[0] + CRLF + MoreLines(more[1..])
  }

  function MoreText(more: seq<seq<byte>>): seq<byte> {
    if more == [] then [] else [SP] + more[0] + MoreText(more[1..])
  }

  function End(bare: bool): seq<byte> { if bare then [LF] else CRLF }

  function Line(f: Item): seq<byte> { f.name + [COLON, SP] + f.value + End(f.bare) + MoreLines(f.more) }

  function Lines(fs: seq<Item>): seq<byte> { if fs == [] then [] else Line(fs[0]) + Lines(fs[1..]) }

  /** The fields, one line each, and an empty line. */
  function Block(fs: seq<Item>): seq<byte> { Lines(fs) + CRLF }

  /** The lines of a value are joined by single spaces. */
  function Read(f: Item): Field {
    var value := f.value + MoreText(f.more);
    Field(f.name, value, false, IsText(value))
  }

  // ---- bytes

  lemma TokenIs(c: byte)
    ensures TokenByte(c) <==> FieldByte(c)
    ensures TextByte(c) <==> ValueByte(c)
  {
  }

  lemma TextIs(s: seq<byte>)
    ensures IsText(s) <==> AllValue(s)
  {
    hide TextByte, ValueByte;
    forall i | 0 <= i < |s| ensures TextByte(s[i]) <==> ValueByte(s[i]) { TokenIs(s[i]); }
  }

  lemma Marks()
    ensures EndsKey(COLON) && !FieldByte(COLON) && !FieldByte(SP) && !Blank(CR) && !Blank(LF) && Blank(SP)
    ensures !FieldByte(CR) && !FieldByte(LF) && !FieldByte(TAB)
  {
  }

  /** p stands in b at i. */
  predicate Has(b: seq<byte>, i: nat, p: seq<byte>) { i + |p| <= |b| && b[i..i + |p|] == p }

  lemma HasParts(b: seq<byte>, i: nat, p: seq<byte>, q: seq<byte>)
    requires Has(b, i, p + q)
    ensures Has(b, i, p) && Has(b, i + |p|, q)
  {
    assert b[i..i + |p|] == b[i..i + |p + q|][..|p|];
    assert b[i + |p|..i + |p| + |q|] == b[i..i + |p + q|][|p|..];
  }

  lemma HasByte(b: seq<byte>, i: nat, p: seq<byte>, k: nat)
    requires Has(b, i, p) && k < |p|
    ensures b[i + k] == p[k]
  {
    assert b[i..i + |p|][k] == b[i + k];
  }

  /** The text of a line, and its line feed. */
  lemma LineText(b: seq<byte>, i: nat, s: seq<byte>, bare: bool)
    requires Has(b, i, s + End(bare)) && LF !in s && (bare ==> s == [] || s[|s| - 1] != CR)
    ensures var lf := i + |s + End(bare)| - 1; lf < |b| && First(b, i, IsLF) == lf && Text(b, i, lf) == s
  {
    HasParts(b, i, s, End(bare));
    HasByte(b, i + |s|, End(bare), 0);
    if bare {
      if s != [] { HasByte(b, i, s, |s| - 1); }
    } else {
      HasByte(b, i + |s|, End(bare), 1);
    }
    var lf := i + |s + End(bare)| - 1;
    forall k | i <= k < lf ensures !IsLF(b[k]) {
      if k < i + |s| { HasByte(b, i, s, k - i); }
    }
    FirstIs(b, i, IsLF, lf);
  }

  lemma NoTrim(s: seq<byte>)
    requires s != [] ==> !Blank(s[|s| - 1])
    ensures TrimRight(s) == s
  {
  }

  lemma NoTrimLeft(s: seq<byte>)
    requires s != [] ==> !Blank(s[0])
    ensures TrimLeft(s) == s
  {
  }

  // ---- continuation lines

  lemma {:induction false} FoldPrinted(b: seq<byte>, pos: nat, more: seq<seq<byte>>)
    requires Has(b, pos, MoreLines(more)) && forall i :: 0 <= i < |more| ==> IsLine(more[i]) && more[i] != []
    requires var end := pos + |MoreLines(more)|; end < |b| && !Blank(b[end])
    ensures FoldTail(b, pos) == Some(Joined(MoreText(more), pos + |MoreLines(more)|))
    decreases |more|
  {
    hide First, Text, Trim, Blank, FoldTail, IsLine;
    if more == [] {
      FoldHere(b, pos);
    } else {
      var m := more[0];
      assert MoreLines(more) == [SP] + ((m + CRLF) + MoreLines(more[1..]));
      HasParts(b, pos, [SP], (m + CRLF) + MoreLines(more[1..]));
      HasParts(b, pos + 1, m + CRLF, MoreLines(more[1..]));
      var next := pos + 1 + |m + CRLF|;
      assert IsLine(m) && m != [];
      FoldOne(b, pos, m);
      FoldPrinted(b, next, more[1..]);
      assert MoreText(more) == [SP] + m + MoreText(more[1..]);
    }
  }

  lemma FoldHere(b: seq<byte>, pos: nat)
    requires pos < |b| && !Blank(b[pos])
    ensures FoldTail(b, pos) == Some(Joined([], pos))
  {
    FirstIs(b, pos, NotBlank, pos);
  }

  lemma FoldOne(b: seq<byte>, pos: nat, m: seq<byte>)
    requires Has(b, pos, [SP]) && Has(b, pos + 1, m + CRLF) && IsLine(m) && m != []
    ensures var next := pos + 1 + |m + CRLF|;
      FoldTail(b, pos) == match FoldTail(b, next) {
        case None => None
        case Some(j) => Some(Joined([SP] + m + j.text, j.r))
      }
  {
    HasByte(b, pos, [SP], 0);
    HasByte(b, pos + 1, m + CRLF, 0);
    FirstIs(b, pos, NotBlank, pos + 1);
    LineText(b, pos + 1, m, false);
    NoTrimLeft(m);
    NoTrim(m);
    hide First, Text, Trim, IsLine;
    FoldLine(b, pos, pos + 1, pos + 1 + |m| + 1);
  }

  // ---- one field

  /** Where the parts of a field's first line are. */
  ghost predicate At(b: seq<byte>, r: nat, f: Item) { Has(b, r, f.name + [COLON, SP] + (f.value + End(f.bare))) }

  lemma KeyEnds(b: seq<byte>, r: nat, f: Item)
    requires Proper(f) && At(b, r, f)
    ensures var c := r + |f.name|;
      c + 2 < |b| && b[c] == COLON && b[c + 1] == SP && b[r..c] == f.name && First(b, r, EndsKey) == c
      && b[r] == f.name[0] && Has(b, c + 2, f.value + End(f.bare))
  {
    var c, tail := r + |f.name|, f.value + End(f.bare);
    assert Has(b, r, f.name + [COLON, SP] + tail) && IsToken(f.name);
    assert |tail| > 0;
    hide *;
    NameEnds(b, r, f.name, tail);
  }

  lemma NameEnds(b: seq<byte>, r: nat, name: seq<byte>, tail: seq<byte>)
    requires Has(b, r, name + [COLON, SP] + tail) && IsToken(name) && |tail| > 0
    ensures var c := r + |name|;
      c + 2 < |b| && b[c] == COLON && b[c + 1] == SP && b[r..c] == name && First(b, r, EndsKey) == c
      && b[r] == name[0] && Has(b, c + 2, tail)
  {
    var c := r + |name|;
    HasParts(b, r, name + [COLON, SP], tail);
    HasParts(b, r, name, [COLON, SP]);
    HasByte(b, c, [COLON, SP], 0);
    HasByte(b, c, [COLON, SP], 1);
    HasByte(b, r, name, 0);
    hide FieldByte, TokenByte, First;
    Marks();
    forall k | r <= k < c ensures !EndsKey(b[k]) {
      HasByte(b, r, name, k - r);
      TokenIs(b[k]);
    }
    FirstIs(b, r, EndsKey, c);
  }

  /** The value starts behind the space, or there is none. */
  lemma ValueStarts(b: seq<byte>, c: nat, value: seq<byte>, bare: bool)
    requires c + 1 < |b| && b[c + 1] == SP && Has(b, c + 2, value + End(bare)) && IsLine(value)
    ensures c + 2 < |b| && First(b, c + 1, NotBlank) == c + 2
  {
    HasByte(b, c + 2, value + End(bare), 0);
    FirstIs(b, c + 1, NotBlank, c + 2);
  }

  lemma NameIsPlain(name: seq<byte>)
    requires IsToken(name)
    ensures !InnerSpace(name) && !Blank(name[0]) && name[0] != CR && name[0] != LF
  {
    hide FieldByte, TokenByte;
    Marks();
    TokenIs(name[0]);
    forall i | 0 <= i < |name| ensures name[i] != SP && !Blank(name[i]) { TokenIs(name[i]); }
    NoTrim(name);
  }

  /** The line feed of a field's first line. */
  function Feed(r: nat, f: Item): nat { r + |f.name| + 2 + |f.value| + |End(f.bare)| - 1 }

  /** Has: the field, its continuation lines, and a byte behind them that is no blank. */
  ghost predicate Printed(b: seq<byte>, r: nat, f: Item) {
    Has(b, r, Line(f)) && r + |Line(f)| < |b| && !Blank(b[r + |Line(f)|]) && (f.more != [] ==> Complete(b))
  }

  lemma PrintedParts(b: seq<byte>, r: nat, f: Item)
    requires Printed(b, r, f)
    ensures At(b, r, f)
    ensures var next := Feed(r, f) + 1;
      Has(b, next, MoreLines(f.more)) && r + |Line(f)| == next + |MoreLines(f.more)|
  {
    var head := f.name + [COLON, SP] + (f.value + End(f.bare));
    assert Line(f) == head + MoreLines(f.more);
    HasParts(b, r, head, MoreLines(f.more));
  }

  /** Where the scanner finds the parts of a field. */
  lemma Located(b: seq<byte>, r: nat, f: Item)
    requires Proper(f) && At(b, r, f)
    ensures var c, lf := r + |f.name|, Feed(r, f);
      && r < c && lf < |b| && b[r] != CR && b[r] != LF && b[c] == COLON && b[c + 1] == SP && b[r..c] == f.name
      && First(b, r, EndsKey) == c && First(b, c + 1, NotBlank) == c + 2 && First(b, c + 2, IsLF) == lf
      && Text(b, c + 2, lf) == f.value && !InnerSpace(f.name)
  {
    hide First, Text, InnerSpace, Has, IsLine, FieldByte, TokenByte, Blank;
    KeyEnds(b, r, f);
    NameIsPlain(f.name);
    var c := r + |f.name|;
    ValueStarts(b, c, f.value, f.bare);
    NoLineFeed(f.value);
    LineText(b, c + 2, f.value, f.bare);
  }

  /** A printed field is read, with the lines of its value joined. */
  lemma NextPrinted(b: seq<byte>, r: nat, f: Item)
    requires Proper(f) && Printed(b, r, f)
    ensures NextAt(b, r) == Got(Read(f), f.more != [], r + |Line(f)|)
  {
    hide *;
    PrintedParts(b, r, f);
    Located(b, r, f);
    var c := r + |f.name|;
    var lf := Feed(r, f);
    if f.more == [] { SingleLine(b, r, c, lf, f); } else { FoldedLines(b, r, c, lf, f); }
    FieldIsNext(b, r, c, lf);
  }

  lemma FieldIsNext(b: seq<byte>, r: nat, c: nat, lf: nat)
    requires r < c && c + 2 <= lf && lf + 1 < |b| && b[r] != CR && b[r] != LF && b[c] == COLON
    requires First(b, r, EndsKey) == c && First(b, c + 1, NotBlank) == c + 2 && First(b, c + 2, IsLF) == lf
    ensures NextAt(b, r) == FieldAt(b, r, c, c + 2, lf)
  {
    hide First, FieldAt, EndsKey, NotBlank, IsLF;
  }

  lemma NoLineFeed(s: seq<byte>)
    requires IsLine(s)
    ensures LF !in s && (s != [] ==> !Blank(s[|s| - 1]) && s[|s| - 1] != CR)
  {
  }

  lemma SingleLine(b: seq<byte>, r: nat, c: nat, lf: nat, f: Item)
    requires Proper(f) && Printed(b, r, f) && f.more == [] && c == r + |f.name| && lf == Feed(r, f)
    requires lf < |b| && b[r..c] == f.name && Text(b, c + 2, lf) == f.value && !InnerSpace(f.name)
    ensures lf + 1 < |b| && FieldAt(b, r, c, c + 2, lf) == Got(Read(f), false, r + |Line(f)|)
  {
    hide First, Text, InnerSpace, FieldByte, FoldTail, Complete, IsLine, AllValue, IsText;
    NoLineFeed(f.value);
    NoTrim(f.value);
    TextIs(f.value);
    assert MoreText(f.more) == [] && f.value + [] == f.value;
    assert r + |Line(f)| == Feed(r, f) + 1;
  }

  lemma MoreFollows(b: seq<byte>, r: nat, lf: nat, f: Item)
    requires Proper(f) && Printed(b, r, f) && f.more != [] && lf == Feed(r, f)
    ensures lf + 1 < |b| && Blank(b[lf + 1]) && Complete(b)
    ensures FoldTail(b, lf + 1) == Some(Joined(MoreText(f.more), r + |Line(f)|))
  {
    hide FoldTail, Complete, Line, MoreText, IsLine, IsToken;
    PrintedParts(b, r, f);
    StartsBlank(f.more);
    HasByte(b, lf + 1, MoreLines(f.more), 0);
    hide MoreLines, Blank;
    FoldPrinted(b, lf + 1, f.more);
  }

  lemma StartsBlank(more: seq<seq<byte>>)
    requires more != []
    ensures MoreLines(more) != [] && MoreLines(more)[0] == SP
  {
  }

  lemma FoldedLines(b: seq<byte>, r: nat, c: nat, lf: nat, f: Item)
    requires Proper(f) && Printed(b, r, f) && f.more != [] && c == r + |f.name| && lf == Feed(r, f)
    requires lf < |b| && b[r..c] == f.name && Text(b, c + 2, lf) == f.value && !InnerSpace(f.name) && b[c + 1] == SP
    ensures lf + 1 < |b| && FieldAt(b, r, c, c + 2, lf) == Got(Read(f), true, r + |Line(f)|)
  {
    hide *;
    MoreFollows(b, r, lf, f);
    ValueEdges(r, f);
    TextFrom(b, c + 1, lf, f.value);
    LeadingSpace(f.value, MoreText(f.more));
    TextIs(f.value + MoreText(f.more));
    JoinedField(b, r, c, lf, f);
  }

  lemma ValueEdges(r: nat, f: Item)
    requires Proper(f) && f.more != []
    ensures r + |f.name| + 2 <= Feed(r, f)
    ensures f.name != [] && f.value != [] && !Blank(f.value[0]) && !Blank(f.value[|f.value| - 1])
  {
  }

  lemma JoinedField(b: seq<byte>, r: nat, c: nat, lf: nat, f: Item)
    requires r < c && c + 2 <= lf && lf + 1 < |b| && Blank(b[lf + 1]) && Complete(b) && b[r..c] == f.name
    requires FoldTail(b, lf + 1) == Some(Joined(MoreText(f.more), r + |Line(f)|)) && !InnerSpace(f.name)
    requires TrimLeft(TrimRight(Text(b, c + 1, lf)) + MoreText(f.more)) == f.value + MoreText(f.more)
    requires AllValue(f.value + MoreText(f.more)) == IsText(f.value + MoreText(f.more))
    ensures FieldAt(b, r, c, c + 2, lf) == Got(Read(f), true, r + |Line(f)|)
  {
    hide First, InnerSpace, FoldTail, Complete, AllValue, IsText, MoreText, Blank, Line, Text, TrimLeft, TrimRight;
  }

  lemma TextFrom(b: seq<byte>, i: nat, lf: nat, value: seq<byte>)
    requires i + 1 <= lf < |b| && b[i] == SP && Text(b, i + 1, lf) == value && value != []
    ensures Text(b, i, lf) == [SP] + value
  {
  }

  lemma LeadingSpace(value: seq<byte>, t: seq<byte>)
    requires value != [] && !Blank(value[0]) && !Blank(value[|value| - 1])
    ensures TrimLeft(TrimRight([SP] + value) + t) == value + t
  {
    var s := [SP] + value;
    assert s[|s| - 1] == value[|value| - 1];
    NoTrim(s);
    var x := s + t;
    FirstIs(x, 0, NotBlank, 1);
    assert x[1..] == value + t;
  }

  // ---- a whole block

  /** What the callers make of the fields, one after the other. */
  function Collect<S, E>(st: S, fs: seq<Item>, add: (S, Field) -> Result<S, E>): Result<S, E> {
    if fs == [] then Ok(st)
    else
      match add(st, Read(fs[0]))
      case Err(e) => Err(e)
      case Ok(st1) => Collect(st1, fs[1..], add)
  }

  function Outcome<S, E>(r: Result<S, E>, n: nat): Parsed<S, E> {
    match r
    case Err(e) => Fail(Rejected(e))
    case Ok(st) => Done(st, n)
  }

  ghost predicate AllProper(fs: seq<Item>) { forall i :: 0 <= i < |fs| ==> Proper(fs[i]) }

  /** The terminator of a block is two CRLF: the line before the empty one must not end in a line feed alone. */
  predicate Closed(fs: seq<Item>) { fs == [] || fs[|fs| - 1].more != [] || !fs[|fs| - 1].bare }

  /** Behind each field of a block comes another or the empty line. */
  lemma FirstOf(b: seq<byte>, r: nat, fs: seq<Item>)
    requires Has(b, r, Block(fs)) && AllProper(fs)
    ensures r + 1 < |b| && !Blank(b[r]) && (fs != [] ==> b[r] != CR && b[r] != LF)
    ensures fs == [] ==> b[r] == CR && b[r + 1] == LF
  {
    HasByte(b, r, Block(fs), 0);
    HasByte(b, r, Block(fs), 1);
    Marks();
    if fs != [] {
      assert Block(fs)[0] == fs[0].name[0];
      NameIsPlain(fs[0].name);
    }
  }

  lemma RestOf(b: seq<byte>, r: nat, fs: seq<Item>)
    requires Has(b, r, Block(fs)) && AllProper(fs) && fs != [] && Complete(b)
    ensures Printed(b, r, fs[0]) && Has(b, r + |Line(fs[0])|, Block(fs[1..])) && AllProper(fs[1..])
    ensures |Block(fs)| == |Line(fs[0])| + |Block(fs[1..])|
  {
    hide Complete, Line, Proper, Blank;
    assert Block(fs) == Line(fs[0]) + Block(fs[1..]);
    HasParts(b, r, Line(fs[0]), Block(fs[1..]));
    FirstOf(b, r + |Line(fs[0])|, fs[1..]);
  }

  lemma {:induction false} FieldsFrom<S, E>(b: seq<byte>, r: nat, st: S, fs: seq<Item>, add: (S, Field) -> Result<S, E>)
    requires Has(b, r, Block(fs)) && AllProper(fs) && Complete(b)
    ensures Fields(b, r, true, st, add) == Outcome(Collect(st, fs, add), r + |Block(fs)|)
    decreases |fs|
  {
    hide Complete, Line, Proper, Block, Blank, Printed, Has, KeyAt, AllProper;
    FirstOf(b, r, fs);
    if fs == [] {
      assert |Block(fs)| == 2 by { NoFields(fs); }
    } else {
      RestOf(b, r, fs);
      FirstProper(fs);
      NextPrinted(b, r, fs[0]);
      hide NextAt;
      if add(st, Read(fs[0])).Ok? { FieldsFrom(b, r + |Line(fs[0])|, add(st, Read(fs[0])).value, fs[1..], add); }
    }
  }

  lemma NoFields(fs: seq<Item>)
    requires fs == []
    ensures Block(fs) == CRLF
  {
  }

  lemma FirstProper(fs: seq<Item>)
    requires AllProper(fs) && fs != []
    ensures Proper(fs[0])
  {
  }

  /** A block that ends in an empty line has its terminator, unless it has no fields. */
  lemma BlockComplete(b: seq<byte>, r: nat, fs: seq<Item>)
    requires Has(b, r, Block(fs)) && fs != [] && Closed(fs)
    ensures Complete(b)
  {
    var n := |Lines(fs)|;
    LinesEnd(fs);
    HasByte(b, r, Block(fs), n - 2);
    HasByte(b, r, Block(fs), n - 1);
    HasByte(b, r, Block(fs), n);
    HasByte(b, r, Block(fs), n + 1);
    assert TermAt(b, r + n - 2);
  }

  lemma {:induction false} MoreLinesEnd(more: seq<seq<byte>>)
    requires more != []
    ensures var s := MoreLines(more); |s| >= 2 && s[|s| - 2] == CR && s[|s| - 1] == LF
    decreases |more|
  {
    var rest := MoreLines(more[1..]);
    var head := [SP] + more[0] + CRLF;
    assert MoreLines(more) == head + rest;
    if more[1..] != [] {
      MoreLinesEnd(more[1..]);
    } else {
      assert head + rest == head;
    }
  }

  lemma {:induction false} LinesEnd(fs: seq<Item>)
    requires fs != [] && Closed(fs)
    ensures var s := Lines(fs); |s| >= 2 && s[|s| - 2] == CR && s[|s| - 1] == LF
    decreases |fs|
  {
    var f := fs[0];
    var head := f.name + [COLON, SP] + f.value + End(f.bare);
    assert Line(f) == head + MoreLines(f.more);
    if fs[1..] != [] {
      LinesEnd(fs[1..]);
    } else {
      assert Lines(fs) == Line(f);
      if f.more != [] { MoreLinesEnd(f.more); } else { assert Line(f) == head; }
    }
  }

  /** Any list of fields reads back, in order and with its own length, whatever follows the block. */
  lemma BlockReads<S, E>(fs: seq<Item>, rest: seq<byte>, st: S, add: (S, Field) -> Result<S, E>)
    requires AllProper(fs) && Closed(fs)
    ensures Fields(Block(fs) + rest, 0, false, st, add) == Outcome(Collect(st, fs, add), |Block(fs)|)
  {
    var b := Block(fs) + rest;
    assert b[0..|Block(fs)|] == Block(fs);
    FirstOf(b, 0, fs);
    hide Block, Has, Line, Proper, Blank, NextAt, AllProper, Complete;
    if fs == [] {
      NoFields(fs);
    } else {
      BlockComplete(b, 0, fs);
      FieldsFrom(b, 0, st, fs, add);
      StartsPlain(b);
      Restart(b, st, add);
    }
  }

  lemma StartsPlain(b: seq<byte>)
    requires |b| >= 2 && !Blank(b[0]) && b[0] != CR
    ensures StartAt(b) == NextAt(b, 0)
  {
    hide NextAt;
  }

  lemma Restart<S, E>(b: seq<byte>, st: S, add: (S, Field) -> Result<S, E>)
    requires StartAt(b) == NextAt(b, 0)
    ensures Fields(b, 0, false, st, add) == Fields(b, 0, true, st, add)
  {
    hide StartAt, NextAt;
  }

  function ReadAll(fs: seq<Item>): seq<Field> { if fs == [] then [] else [Read(fs[0])] + ReadAll(fs[1..]) }

  function Append<E>(): (seq<Field>, Field) -> Result<seq<Field>, E> { (s: seq<Field>, f: Field) => Ok(s + [f]) }

  lemma {:induction false} CollectAll<E>(st: seq<Field>, fs: seq<Item>)
    ensures Collect(st, fs, Append<E>()) == Ok(st + ReadAll(fs))
    decreases |fs|
  {
    if fs == [] {
      assert st + [] == st;
    } else {
      CollectAll<E>(st + [Read(fs[0])], fs[1..]);
      assert st + [Read(fs[0])] + ReadAll(fs[1..]) == st + ([Read(fs[0])] + ReadAll(fs[1..]));
    }
  }

  // ---- a start line in front of the block

  function EmptyLines(n: nat): seq<byte> { if n == 0 then [] else CRLF + EmptyLines(n - 1) }

  predicate IsStart(line: seq<byte>) { line != [] && LF !in line && line[|line| - 1] != CR }

  /** Empty lines before the start line are passed over. */
  lemma {:induction false} StartLineAt(b: seq<byte>, i: nat, n: nat, line: seq<byte>)
    requires Has(b, i, EmptyLines(n) + (line + CRLF)) && IsStart(line)
    ensures LineAt(b, i) == Some(HeaderReads.Line(line, i + 2 * n + |line| + 2)) && |EmptyLines(n)| == 2 * n
    decreases n
  {
    hide First, Text;
    if n == 0 {
      assert EmptyLines(0) + (line + CRLF) == line + CRLF;
      LineText(b, i, line, false);
    } else {
      var rest := EmptyLines(n - 1) + (line + CRLF);
      assert EmptyLines(n) + (line + CRLF) == ([] + CRLF) + rest;
      HasParts(b, i, [] + CRLF, rest);
      LineText(b, i, [], false);
      StartLineAt(b, i + 2, n - 1, line);
    }
  }

  function Started<S, E>(first: Result<S, E>, fs: seq<Item>, rd: Reader<S, E>, m: nat): Parsed<S, E> {
    match first
    case Err(e) => Fail(Rejected(e))
    case Ok(st) => Checked(Outcome(Collect(st, fs, rd.add), |Block(fs)|), rd.check, m)
  }

  /** A whole header reads back, whatever follows it: its start line, its fields and its length. */
  lemma HeaderReadsBack<S, E>(n: nat, line: seq<byte>, fs: seq<Item>, rest: seq<byte>, rd: Reader<S, E>)
    requires IsStart(line) && AllProper(fs) && Closed(fs)
    ensures var head := EmptyLines(n) + (line + CRLF);
      Parse(head + (Block(fs) + rest), rd) == Started(rd.first(line), fs, rd, |head|)
  {
    var head := EmptyLines(n) + (line + CRLF);
    var b := head + (Block(fs) + rest);
    assert b[0..|head|] == head && b[|head|..] == Block(fs) + rest;
    hide Fields, Block, Collect, LineAt, AllProper, IsStart, Checked;
    StartLineAt(b, 0, n, line);
    if rd.first(line).Ok? { BlockReads(fs, rest, rd.first(line).value, rd.add); }
  }

  // ---- what else pins the scanner down

  /** A block cannot start with a blank. */
  lemma LeadingBlankFails(b: seq<byte>)
    requires b != [] && (b[0] == 32 || b[0] == 9)
    ensures StartAt(b) == Failed(ScanError.LeadingSpace)
  {
  }

  /** Trimming takes exactly the spaces and tabs off the ends. */
  lemma {:induction false} TrimRightIs(s: seq<byte>)
    ensures TrimRight(s) <= s && forall i :: |TrimRight(s)| <= i < |s| ==> s[i] == 32 || s[i] == 9
    ensures TrimRight(s) != [] ==> var last := TrimRight(s)[|TrimRight(s)| - 1]; last != 32 && last != 9
  {
    if s != [] && Blank(s[|s| - 1]) { TrimRightIs(s[..|s| - 1]); }
  }

  lemma TrimLeftIs(s: seq<byte>)
    ensures var k := |s| - |TrimLeft(s)|;
      && 0 <= k <= |s| && TrimLeft(s) == s[k..] && (forall i :: 0 <= i < k ==> s[i] == 32 || s[i] == 9)
      && (k < |s| ==> s[k] != 32 && s[k] != 9)
  {
    var k := First(s, 0, NotBlank);
    forall i | 0 <= i < k ensures s[i] == 32 || s[i] == 9 { assert !NotBlank(s[i]); }
  }

  /** A key has an inner space exactly when a space is followed by something other than blanks. */
  lemma InnerSpaceIs(key: seq<byte>)
    ensures InnerSpace(key) <==> exists i, j :: 0 <= i < j < |key| && key[i] == 32 && key[j] != 32 && key[j] != 9
  {
    TrimRightIs(key);
    var t := TrimRight(key);
    if InnerSpace(key) {
      var i :| 0 <= i < |t| && t[i] == SP;
      assert key[i] == 32 && key[|t| - 1] == t[|t| - 1];
    }
    if i, j :| 0 <= i < j < |key| && key[i] == 32 && key[j] != 32 && key[j] != 9 {
      assert j < |t| && t[i] == key[i];
    }
  }

  // ---- lines that fail

  /** A line whose key holds any byte but token bytes and spaces, or has no name, is an error once it is
      complete: one that says whether there is a colon at all. */
  lemma BadKeyFails(b: seq<byte>, r: nat, k: nat, lf: nat)
    requires r <= k <= lf < |b| && b[lf] == LF && b[r] != CR && b[r] != LF
    requires forall i :: r <= i < lf ==> b[i] != LF
    requires forall i :: r <= i < k ==> TokenByte(b[i]) || b[i] == SP
    requires !TokenByte(b[k]) && b[k] != SP && (b[k] == COLON ==> k == r)
    ensures var line := Text(b, r, lf);
      NextAt(b, r) == Failed(if COLON in line then BadLine(Trim(line)) else MissingColon(line))
  {
    hide Trim, FieldByte, TokenByte, FieldAt;
    forall i | r <= i < k ensures !EndsKey(b[i]) { TokenIs(b[i]); }
    TokenIs(b[k]);
    FirstIs(b, r, EndsKey, k);
    FirstIs(b, r, IsLF, lf);
    var line := Text(b, r, lf);
    if COLON in line {
      var i :| 0 <= i < |line| && line[i] == COLON;
      assert IsColon(line[i]);
    }
  }
}
