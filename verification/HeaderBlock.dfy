/** What a header block means, on bytes that never change (fasthttp/headerscanner.go). The
    scanner itself, which joins folded lines inside its buffer, is in HeaderScanner.dfy. */
module HeaderBlock {
  import opened Common
  import opened Swar

  const TAB: byte := 9
  const LF: byte := 10
  const CR: byte := 13
  const SP: byte := 32
  const COLON: byte := 58

  predicate Blank(c: byte) { c == SP || c == TAB }

  /** Token bytes of section 5.6.2 of RFC 9110. */
  predicate FieldByte(c: byte) {
    || c == 0x21 || 0x23 <= c <= 0x27 || c == 0x2a || c == 0x2b || c == 0x2d || c == 0x2e
    || 0x30 <= c <= 0x39 || 0x41 <= c <= 0x5a || 0x5e <= c <= 0x7a || c == 0x7c || c == 0x7e
  }

  predicate ValueByte(c: byte) { !IsCTL(c) || c == TAB }

  predicate AllValue(s: seq<byte>) { forall i :: 0 <= i < |s| ==> ValueByte(s[i]) }

  // ---- searching

  predicate IsLF(c: byte) { c == LF }
  predicate IsColon(c: byte) { c == COLON }
  predicate NotBlank(c: byte) { !Blank(c) }
  predicate EndsKey(c: byte) { !FieldByte(c) && c != SP }

  /** The first index from i on whose byte satisfies p, or the length. */
  function First(b: seq<byte>, i: nat, p: byte -> bool): (r: nat)
    requires i <= |b|
    ensures i <= r <= |b| && (r < |b| ==> p(b[r]))
    ensures forall k :: i <= k < r ==> !p(b[k])
    decreases |b| - i
  {
    if i == |b| || p(b[i]) then i else First(b, i + 1, p)
  }

  /** CRLFCRLF at e. */
  predicate TermAt(b: seq<byte>, e: nat) {
    e + 4 <= |b| && b[e] == CR && b[e + 1] == LF && b[e + 2] == CR && b[e + 3] == LF
  }

  predicate Complete(b: seq<byte>) { exists e :: 0 <= e < |b| && TermAt(b, e) }

  function TrimLeft(s: seq<byte>): seq<byte> { s[First(s, 0, NotBlank)..] }

  function TrimRight(s: seq<byte>): seq<byte>
    decreases |s|
  {
    if s != [] && Blank(s[|s| - 1]) then TrimRight(s[..|s| - 1]) else s
  }

  function Trim(s: seq<byte>): seq<byte> { TrimRight(TrimLeft(s)) }

  /** The line from i to the line feed at lf, without it and a preceding CR. */
  function Text(b: seq<byte>, i: nat, lf: nat): seq<byte>
    requires i <= lf <= |b|
  {
    if lf > i && b[lf - 1] == CR then b[i..lf - 1] else b[i..lf]
  }

  /** A space with another byte after it. */
  predicate InnerSpace(key: seq<byte>) { SP in TrimRight(key) }

  // ---- one field

  datatype Field = Field(key: seq<byte>, value: seq<byte>, keyHasSpace: bool, valueValid: bool)

  datatype ScanError = LeadingSpace | MissingColon(line: seq<byte>) | BadLine(line: seq<byte>)

  /** More: the bytes so far do not decide. */
  datatype Scan = More | Failed(err: ScanError) | End(r: nat) | Got(field: Field, folded: bool, r: nat)

  datatype Joined = Joined(text: seq<byte>, r: nat)

  /** The continuation lines from the line start pos on, each trimmed and led by one space. */
  function FoldTail(b: seq<byte>, pos: nat): (j: Option<Joined>)
    requires pos <= |b|
    ensures j.Some? ==> pos <= j.value.r < |b|
    decreases |b| - pos
  {
    var q := First(b, pos, NotBlank);
    if q == |b| then None
    else if q == pos then Some(Joined([], pos))
    else
      var lf := First(b, q, IsLF);
      if lf == |b| then None
      else
        AddLine(Trim(Text(b, q, lf)), FoldTail(b, lf + 1))
  }

  function FailAt(b: seq<byte>, r: nat): Scan
    requires r <= |b|
  {
    var lf := First(b, r, IsLF);
    if lf == |b| then More
    else
      var line := Text(b, r, lf);
      if First(line, 0, IsColon) == |line| then Failed(MissingColon(line)) else Failed(BadLine(Trim(line)))
  }

  /** The field whose key is b[r..c] and whose first line ends at lf. */
  function FieldAt(b: seq<byte>, r: nat, c: nat, v: nat, lf: nat): (n: Scan)
    requires r < c < v <= lf && lf + 1 < |b|
    ensures n == More || (n.Got? && r < n.r < |b|)
  {
    var key := b[r..c];
    if !Blank(b[lf + 1]) then
      Got(Field(key, TrimRight(Text(b, v, lf)), InnerSpace(key), AllValue(Text(b, v, lf))), false, lf + 1)
    else if !Complete(b) then More
    else
      match FoldTail(b, lf + 1)
      case None => More
      case Some(j) =>
        var value := TrimLeft(TrimRight(Text(b, c + 1, lf)) + j.text);
        Got(Field(key, value, InnerSpace(key), AllValue(value)), true, j.r)
  }

  /** The line at r, which is not blank. */
  function KeyAt(b: seq<byte>, r: nat): (n: Scan)
    requires r < |b|
    ensures n.Got? ==> r < n.r < |b|
    ensures !n.End?
  {
    var c := First(b, r, EndsKey);
    if c == |b| then More
    else if b[c] != COLON || c == r then FailAt(b, r)
    else
      var v := First(b, c + 1, NotBlank);
      var lf := First(b, v, IsLF);
      if lf + 1 >= |b| then More else FieldAt(b, r, c, v, lf)
  }

  /** What is at the line start r. */
  function NextAt(b: seq<byte>, r: nat): (n: Scan)
    requires r <= |b|
    ensures n.Got? ==> r < n.r < |b|
    ensures n.End? ==> r < n.r <= |b| && Complete(b)
  {
    if r == |b| then More
    else if b[r] == CR && r + 1 == |b| then More
    else if b[r] == CR && b[r + 1] == LF then (if Complete(b) then End(r + 2) else More)
    else if b[r] == LF then (if Complete(b) then End(r + 1) else More)
    else KeyAt(b, r)
  }

  /** The first call for a block. */
  function StartAt(b: seq<byte>): (n: Scan)
    ensures n.Got? ==> 0 < n.r < |b|
    ensures n.End? ==> 0 < n.r <= |b| && (Complete(b) || (|b| >= 2 && b[0] == CR && b[1] == LF))
  {
    if |b| >= 2 && b[0] == CR && b[1] == LF then End(2)
    else if |b| > 0 && Blank(b[0]) then Failed(LeadingSpace)
    else NextAt(b, 0)
  }

  // ---- more bytes do not change an outcome

  lemma FirstIs(b: seq<byte>, i: nat, p: byte -> bool, r: nat)
    requires i <= r < |b| && p(b[r]) && forall k :: i <= k < r ==> !p(b[k])
    ensures First(b, i, p) == r
  {
  }

  lemma FirstStable(b: seq<byte>, x: seq<byte>, i: nat, p: byte -> bool)
    requires i <= |b| && First(b, i, p) < |b|
    ensures First(b + x, i, p) == First(b, i, p)
  {
    FirstIs(b + x, i, p, First(b, i, p));
  }

  lemma TextStable(b: seq<byte>, x: seq<byte>, i: nat, lf: nat)
    requires i <= lf <= |b|
    ensures Text(b + x, i, lf) == Text(b, i, lf)
  {
    assert (b + x)[i..lf] == b[i..lf];
    if lf > i { assert (b + x)[i..lf - 1] == b[i..lf - 1]; }
  }

  lemma CompleteStable(b: seq<byte>, x: seq<byte>)
    requires Complete(b)
    ensures Complete(b + x)
  {
    var e :| 0 <= e < |b| && TermAt(b, e);
    assert TermAt(b + x, e);
  }

  /** FoldTail, one line at a time. */
  lemma FoldUnfold(b: seq<byte>, pos: nat, q: nat)
    requires pos <= |b| && q == First(b, pos, NotBlank)
    ensures q == |b| ==> FoldTail(b, pos) == None
    ensures q == pos < |b| ==> FoldTail(b, pos) == Some(Joined([], pos))
    ensures pos < q < |b| && First(b, q, IsLF) == |b| ==> FoldTail(b, pos) == None
  {
    hide First, Trim, Text;
  }

  lemma FoldLine(b: seq<byte>, pos: nat, q: nat, lf: nat)
    requires pos < q < |b| && q == First(b, pos, NotBlank) && lf < |b| && lf == First(b, q, IsLF)
    ensures FoldTail(b, pos) == AddLine(Trim(Text(b, q, lf)), FoldTail(b, lf + 1))
  {
    hide First, Trim, Text;
  }

  function AddLine(line: seq<byte>, j: Option<Joined>): Option<Joined> {
    match j
    case None => None
    case Some(j) => Some(Joined([SP] + line + j.text, j.r))
  }

  lemma {:induction false} FoldTailStable(b: seq<byte>, x: seq<byte>, pos: nat)
    requires pos <= |b| && FoldTail(b, pos).Some?
    ensures FoldTail(b + x, pos) == FoldTail(b, pos)
    decreases |b| - pos
  {
    hide First, NotBlank, IsLF, Trim, Text, FoldTail, AddLine;
    var q := First(b, pos, NotBlank);
    FoldUnfold(b, pos, q);
    FirstStable(b, x, pos, NotBlank);
    FoldUnfold(b + x, pos, q);
    if q != pos {
      var lf := First(b, q, IsLF);
      FirstStable(b, x, q, IsLF);
      FoldLine(b, pos, q, lf);
      FoldLine(b + x, pos, q, lf);
      TextStable(b, x, q, lf);
      assert FoldTail(b, lf + 1).Some? by { NoLine(Trim(Text(b, q, lf)), FoldTail(b, lf + 1)); }
      FoldTailStable(b, x, lf + 1);
    }
  }

  lemma NoLine(line: seq<byte>, j: Option<Joined>)
    ensures AddLine(line, j).Some? ==> j.Some?
  {
  }

  lemma FailStable(b: seq<byte>, x: seq<byte>, r: nat)
    requires r <= |b| && FailAt(b, r) != More
    ensures FailAt(b + x, r) == FailAt(b, r)
  {
    FirstStable(b, x, r, IsLF);
    TextStable(b, x, r, First(b, r, IsLF));
  }

  lemma FieldStable(b: seq<byte>, x: seq<byte>, r: nat, c: nat, v: nat, lf: nat)
    requires r < c < v <= lf && lf + 1 < |b| && FieldAt(b, r, c, v, lf) != More
    ensures FieldAt(b + x, r, c, v, lf) == FieldAt(b, r, c, v, lf)
  {
    hide TrimRight, TrimLeft, InnerSpace, AllValue, Complete, FoldTail, Text;
    assert (b + x)[r..c] == b[r..c];
    TextStable(b, x, v, lf);
    if Blank(b[lf + 1]) {
      CompleteStable(b, x);
      FoldTailStable(b, x, lf + 1);
      TextStable(b, x, c + 1, lf);
    }
  }

  /** An outcome other than More is the same whatever bytes follow. */
  lemma NextStable(b: seq<byte>, x: seq<byte>, r: nat)
    requires r <= |b| && NextAt(b, r) != More
    ensures NextAt(b + x, r) == NextAt(b, r)
  {
    hide FieldAt, FailAt, Complete, First, NotBlank, IsLF, EndsKey;
    if b[r] == LF || (b[r] == CR && b[r + 1] == LF) {
      CompleteStable(b, x);
    } else {
      var c := First(b, r, EndsKey);
      FirstStable(b, x, r, EndsKey);
      if b[c] != COLON || c == r {
        FailStable(b, x, r);
      } else {
        var v := First(b, c + 1, NotBlank);
        FirstStable(b, x, c + 1, NotBlank);
        FirstStable(b, x, v, IsLF);
        FieldStable(b, x, r, c, v, First(b, v, IsLF));
      }
    }
  }

  lemma StartStable(b: seq<byte>, x: seq<byte>)
    requires StartAt(b) != More
    ensures StartAt(b + x) == StartAt(b)
  {
    hide NextAt;
    if !(|b| >= 2 && b[0] == CR && b[1] == LF) && !(|b| > 0 && Blank(b[0])) {
      NextStable(b, x, 0);
      NextNeedsByte(b);
    }
  }

  lemma NextNeedsByte(b: seq<byte>)
    requires NextAt(b, 0) != More
    ensures |b| >= 2
  {
  }

  // ---- a terminated block is always decided

  lemma FirstBefore(b: seq<byte>, i: nat, p: byte -> bool, k: nat)
    requires i <= k < |b| && p(b[k])
    ensures First(b, i, p) <= k
  {
  }

  lemma StopBytes()
    ensures EndsKey(CR) && NotBlank(CR) && NotBlank(LF) && IsLF(LF)
  {
  }

  lemma {:induction false} FoldInBlock(b: seq<byte>, e: nat, pos: nat)
    requires TermAt(b, e) && pos <= e + 2
    ensures FoldTail(b, pos).Some? && FoldTail(b, pos).value.r <= e + 2
    decreases e + 2 - pos
  {
    hide First, NotBlank, IsLF, Trim, Text;
    StopBytes();
    var q := First(b, pos, NotBlank);
    if pos <= e { FirstBefore(b, pos, NotBlank, e); } else { FirstBefore(b, pos, NotBlank, pos); }
    if q != pos {
      FirstBefore(b, q, IsLF, e + 1);
      FoldInBlock(b, e, First(b, q, IsLF) + 1);
    }
  }

  lemma FieldInBlock(b: seq<byte>, e: nat, r: nat, c: nat, v: nat, lf: nat)
    requires TermAt(b, e) && r < c < v <= lf <= e + 1
    ensures var n := FieldAt(b, r, c, v, lf); n.Got? && r < n.r <= e + 2
  {
    hide FoldTail, Text, TrimRight, InnerSpace, AllValue, TrimLeft, Trim, Blank;
    assert Complete(b);
    FoldInBlock(b, e, lf + 1);
  }

  lemma FailInBlock(b: seq<byte>, e: nat, r: nat)
    requires TermAt(b, e) && r <= e + 1
    ensures FailAt(b, r).Failed?
  {
    hide Text, Trim, First, IsLF, IsColon;
    StopBytes();
    FirstBefore(b, r, IsLF, e + 1);
  }

  /** Up to the blank line of a terminated block the scanner never asks for more bytes, and it
      never reads past that line. */
  lemma NextInBlock(b: seq<byte>, e: nat, r: nat)
    requires TermAt(b, e) && r <= e + 2
    ensures NextAt(b, r) != More
    ensures NextAt(b, r).Got? ==> r < NextAt(b, r).r <= e + 2
    ensures NextAt(b, r).End? ==> NextAt(b, r).r <= e + 4
  {
    hide FieldAt, FailAt, First, NotBlank, EndsKey, IsLF;
    StopBytes();
    assert Complete(b);
    if b[r] != LF && !(b[r] == CR && b[r + 1] == LF) {
      FirstBefore(b, r, EndsKey, e);
      FailInBlock(b, e, r);
      var c := First(b, r, EndsKey);
      if b[c] == COLON && c != r {
        FirstBefore(b, c + 1, NotBlank, e);
        var v := First(b, c + 1, NotBlank);
        FirstBefore(b, v, IsLF, e + 1);
        FieldInBlock(b, e, r, c, v, First(b, v, IsLF));
      }
    }
  }

  // ---- whitespace at the end of a value

  lemma {:induction false} TrimRightEnds(s: seq<byte>)
    ensures TrimRight(s) != [] ==> !Blank(TrimRight(s)[|TrimRight(s)| - 1])
  {
    if s != [] && Blank(s[|s| - 1]) { TrimRightEnds(s[..|s| - 1]); }
  }

  /** The last continuation line from pos on, trimmed. */
  function LastFold(b: seq<byte>, pos: nat): seq<byte>
    requires pos <= |b|
    decreases |b| - pos
  {
    var q := First(b, pos, NotBlank);
    var lf := First(b, q, IsLF);
    if q == pos || lf == |b| then []
    else if First(b, lf + 1, NotBlank) == lf + 1 then Trim(Text(b, q, lf))
    else LastFold(b, lf + 1)
  }

  lemma LastFoldStep(b: seq<byte>, pos: nat)
    requires pos <= |b|
    ensures var q := First(b, pos, NotBlank); var lf := First(b, q, IsLF);
      q > pos && lf < |b| ==>
        LastFold(b, pos) == if First(b, lf + 1, NotBlank) == lf + 1 then Trim(Text(b, q, lf)) else LastFold(b, lf + 1)
  {
    hide First, Trim, Text;
  }

  lemma FoldSplits(b: seq<byte>, pos: nat)
    requires pos <= |b| && FoldTail(b, pos).Some?
    ensures var j, q := FoldTail(b, pos).value, First(b, pos, NotBlank);
      && (j.r == pos <==> q == pos) && (q == pos ==> j.text == [])
      && (j.r > pos ==>
            var lf := First(b, q, IsLF);
            && q < |b| && lf < |b| && FoldTail(b, lf + 1).Some?
            && j.text == [SP] + Trim(Text(b, q, lf)) + FoldTail(b, lf + 1).value.text)
  {
    hide First, Trim, Text;
  }

  /** Joined lines end in a blank exactly when the last of them is blank. */
  lemma {:induction false} FoldEnds(b: seq<byte>, pos: nat)
    requires pos <= |b| && FoldTail(b, pos).Some? && FoldTail(b, pos).value.r > pos
    ensures var t := FoldTail(b, pos).value.text; t != [] && (Blank(t[|t| - 1]) <==> LastFold(b, pos) == [])
    decreases |b| - pos
  {
    hide First, Trim, Text, FoldTail, LastFold, Blank;
    FoldSplits(b, pos);
    var q := First(b, pos, NotBlank);
    var lf := First(b, q, IsLF);
    var line, rest := Trim(Text(b, q, lf)), FoldTail(b, lf + 1).value;
    var t := FoldTail(b, pos).value.text;
    LastFoldStep(b, pos);
    FoldSplits(b, lf + 1);
    TrimEnds(Text(b, q, lf));
    SpaceIsBlank();
    if rest.r == lf + 1 {
      assert t == [SP] + line;
    } else {
      FoldEnds(b, lf + 1);
      assert t[|t| - 1] == rest.text[|rest.text| - 1];
    }
  }

  lemma SpaceIsBlank()
    ensures Blank(SP)
  {
  }

  lemma TrimEnds(s: seq<byte>)
    ensures Trim(s) != [] ==> !Blank(Trim(s)[|Trim(s)| - 1])
  {
    TrimRightEnds(TrimLeft(s));
  }

  lemma FoldedValueEnds(b: seq<byte>, first: seq<byte>, pos: nat)
    requires pos < |b| && Blank(b[pos]) && FoldTail(b, pos).Some?
    ensures var value := TrimLeft(first + FoldTail(b, pos).value.text);
      value != [] ==> (Blank(value[|value| - 1]) <==> LastFold(b, pos) == [])
  {
    FoldMoves(b, pos);
    hide FoldTail, LastFold, First, Blank;
    FoldEnds(b, pos);
    var t := FoldTail(b, pos).value.text;
    var x := first + t;
    assert TrimLeft(x) != [] ==> TrimLeft(x)[|TrimLeft(x)| - 1] == x[|x| - 1];
  }

  /** A value on one line never ends in a blank. A folded value that is not empty does exactly
      when its last continuation line is blank. */
  lemma ValueEnds(b: seq<byte>, r: nat, c: nat, v: nat, lf: nat)
    requires r < c < v <= lf && lf + 1 < |b| && FieldAt(b, r, c, v, lf).Got?
    ensures var n := FieldAt(b, r, c, v, lf); var value := n.field.value;
      && (!n.folded && value != [] ==> !Blank(value[|value| - 1]))
      && (n.folded && value != [] ==> (Blank(value[|value| - 1]) <==> LastFold(b, lf + 1) == []))
  {
    hide FoldTail, LastFold, TrimRight, TrimLeft, Text, First, InnerSpace, AllValue, Complete, Blank;
    TrimRightEnds(Text(b, v, lf));
    if Blank(b[lf + 1]) { FoldedValueEnds(b, TrimRight(Text(b, c + 1, lf)), lf + 1); }
  }

  /** A blank at the line start means a continuation line. */
  lemma FoldMoves(b: seq<byte>, pos: nat)
    requires pos < |b| && Blank(b[pos]) && FoldTail(b, pos).Some?
    ensures FoldTail(b, pos).value.r > pos
  {
    assert First(b, pos, NotBlank) > pos;
    hide First, Trim, Text;
    FoldSplits(b, pos);
  }

  /** K:a folded with a blank line. */
  const BlankFold: seq<byte> := [75, COLON, 97, CR, LF, SP, CR, LF, CR, LF]

  lemma BlankFoldFacts()
    ensures var b := BlankFold;
      && Text(b, 6, 7) == [] && Text(b, 2, 4) == [97] && b[0..1] == [75] && Blank(b[5])
      && TermAt(b, 6) && Complete(b)
  {
    assert TermAt(BlankFold, 6);
  }

  lemma AddBlankLine()
    ensures AddLine([], Some(Joined([], 8))) == Some(Joined([SP], 8))
  {
    assert [SP] + [] + [] == [SP];
  }

  lemma BlankFoldTail()
    ensures FoldTail(BlankFold, 5) == Some(Joined([SP], 8))
  {
    var b := BlankFold;
    FirstIs(b, 5, NotBlank, 6);
    FirstIs(b, 6, IsLF, 7);
    FirstIs(b, 8, NotBlank, 8);
    hide First, FoldTail, Text, Trim, AddLine;
    FoldUnfold(b, 8, 8);
    FoldLine(b, 5, 6, 7);
    BlankFoldFacts();
    SmallTrims();
    AddBlankLine();
  }

  lemma BlankFoldField()
    ensures FieldAt(BlankFold, 0, 1, 2, 4) == Got(Field([75], [97, SP], false, true), true, 8)
  {
    hide FoldTail, TrimRight, TrimLeft, Text, InnerSpace, AllValue, Complete, Blank;
    BlankFoldFacts();
    BlankFoldTail();
    SmallTrims();
    assert [97] + [SP] == [97, SP];
  }

  /** Its value is a and a space. */
  lemma BlankFoldLeavesSpace()
    ensures NextAt(BlankFold, 0) == Got(Field([75], [97, SP], false, true), true, 8)
  {
    var b := BlankFold;
    FirstIs(b, 0, EndsKey, 1);
    FirstIs(b, 2, NotBlank, 2);
    FirstIs(b, 2, IsLF, 4);
    BlankFoldField();
    hide First, FieldAt;
  }

  lemma SmallTrims()
    ensures Trim([]) == [] && TrimRight([97]) == [97] && TrimLeft([97, SP]) == [97, SP]
    ensures !InnerSpace([75]) && AllValue([97, SP])
  {
    FirstIs([97, SP], 0, NotBlank, 0);
    assert TrimRight([75]) == [75];
  }
}
