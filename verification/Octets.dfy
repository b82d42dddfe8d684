/** Bytes as numbers, hex digits, and percent-encoding (fasthttp/args.go:593-683,
    fasthttp/bytesconv.go:485-523). */
module Octets {
  type octet = x: int | 0 <= x < 256

  const PERCENT: octet := 37
  const PLUS: octet := 43
  const SPACE: octet := 32
  const SLASH: octet := 47
  const DOT: octet := 46
  const AMP: octet := 38
  const EQ: octet := 61

  /** 16 for a byte that is no hex digit. */
  function HexVal(c: octet): (k: nat)
    ensures k <= 16
  {
    if 48 <= c <= 57 then c - 48 else if 97 <= c <= 102 then c - 87 else if 65 <= c <= 70 then c - 55 else 16
  }

  predicate IsHex(c: octet) { HexVal(c) < 16 }

  function UpperDigit(k: nat): (c: octet)
    requires k < 16
    ensures HexVal(c) == k
  {
    if k < 10 then 48 + k else 55 + k
  }

  /** Letters, digits and - _ . ~ */
  predicate Unreserved(c: octet) {
    48 <= c <= 57 || 65 <= c <= 90 || 97 <= c <= 122 || c == 45 || c == 95 || c == 46 || c == 126
  }

  /** What a path may hold besides: $ & + , / : ; = @ */
  predicate PathSafe(c: octet) {
    Unreserved(c) || c == 36 || c == 38 || c == 43 || c == 44 || c == 47 || c == 58 || c == 59 || c == 61 || c == 64
  }

  // ---- searching

  function IndexByte(s: seq<octet>, c: octet): (i: int)
    ensures -1 <= i < |s| && (i >= 0 ==> s[i] == c) && (i < 0 ==> c !in s)
  {
    if s == [] then -1 else if s[0] == c then 0 else var i := IndexByte(s[1..], c); if i < 0 then -1 else i + 1
  }

  function LastIndexByte(s: seq<octet>, c: octet): (i: int)
    ensures -1 <= i < |s| && (i >= 0 ==> s[i] == c) && forall k :: i < k < |s| ==> s[k] != c
  {
    if s == [] then -1 else if s[|s| - 1] == c then |s| - 1 else LastIndexByte(s[..|s| - 1], c)
  }

  // ---- decoding

  predicate Escape(s: seq<octet>, i: nat) { i + 2 < |s| && s[i] == PERCENT && IsHex(s[i + 1]) && IsHex(s[i + 2]) }

  /** decodeArgAppend, and with plus false decodeArgAppendNoPlus. A percent sign too close to
      the end makes the rest literal, one without digits stands for itself. */
  function Decode(s: seq<octet>, plus: bool): seq<octet> {
    if s == [] then []
    else if s[0] == PERCENT then
      if |s| < 3 then s
      else if Escape(s, 0) then [HexVal(s[1]) * 16 + HexVal(s[2])] + Decode(s[3..], plus)
      else [PERCENT] + Decode(s[1..], plus)
    else if s[0] == PLUS && plus then [SPACE] + Decode(s[1..], plus)
    else [s[0]] + Decode(s[1..], plus)
  }

  predicate Plain(c: octet, plus: bool) { c != PERCENT && (c != PLUS || !plus) }

  lemma {:induction false} DecodePlain(s: seq<octet>, i: nat, plus: bool)
    requires i <= |s| && forall k :: 0 <= k < i ==> Plain(s[k], plus)
    ensures Decode(s, plus) == s[..i] + Decode(s[i..], plus)
    decreases i
  {
    if i == 0 {
      assert s[0..] == s && s[..0] == [];
    } else {
      DecodePlain(s[1..], i - 1, plus);
      assert s[1..][i - 1..] == s[i..] && s[..i] == [s[0]] + s[1..][..i - 1];
    }
  }

  /** The first byte that decoding changes, or the length. */
  function FirstCoded(s: seq<octet>, plus: bool): (i: nat)
    ensures i <= |s| && (forall k :: 0 <= k < i ==> Plain(s[k], plus)) && (i < |s| ==> !Plain(s[i], plus))
  {
    if s == [] || !Plain(s[0], plus) then 0 else FirstCoded(s[1..], plus) + 1
  }

  /** The decoding loop, behind a copy of everything before the first coded byte. */
  method DecodeAppend(dst: seq<octet>, src: seq<octet>, plus: bool) returns (out: seq<octet>)
    ensures out == dst + Decode(src, plus)
  {
    hide Decode, HexVal, IsHex, Plain;
    var idx := FirstCoded(src, plus);
    DecodePlain(src, idx, plus);
    out := dst + src[..idx];
    if idx == |src| {
      DecodeEnd(src[idx..], plus);
      assert src[..idx] == src;
      return;
    }
    assert out + Decode(src[idx..], plus) == dst + Decode(src, plus);
    var i := idx;
    while i < |src|
      invariant idx <= i <= |src| && out + Decode(src[i..], plus) == dst + Decode(src, plus)
    {
      var c := src[i];
      ghost var was := out;
      DecodeAt(src, i, plus);
      if c == PERCENT {
        if i + 3 > |src| { return out + src[i..]; }
        if !IsHex(src[i + 1]) || !IsHex(src[i + 2]) {
          out := out + [PERCENT];
        } else {
          out := out + [HexVal(src[i + 1]) * 16 + HexVal(src[i + 2])];
          i := i + 2;
        }
      } else if c == PLUS && plus {
        out := out + [SPACE];
      } else {
        out := out + [c];
      }
      i := i + 1;
      Appended(was, out[|was|], Decode(src[i..], plus));
    }
    DecodeEnd(src[i..], plus);
  }

  /** Decode, one byte or escape at a time, where it stands. */
  lemma DecodeAt(s: seq<octet>, i: nat, plus: bool)
    requires i < |s|
    ensures var c, coded := s[i], i + 3 <= |s| && IsHex(s[i + 1]) && IsHex(s[i + 2]);
      && (c == PERCENT && i + 3 > |s| ==> Decode(s[i..], plus) == s[i..])
      && (c == PERCENT && coded ==>
            HexVal(s[i + 1]) < 16 && HexVal(s[i + 2]) < 16
            && Decode(s[i..], plus) == [HexVal(s[i + 1]) * 16 + HexVal(s[i + 2])] + Decode(s[i + 3..], plus))
      && (c == PERCENT && i + 3 <= |s| && !coded ==> Decode(s[i..], plus) == [PERCENT] + Decode(s[i + 1..], plus))
      && (c == PLUS && plus ==> Decode(s[i..], plus) == [SPACE] + Decode(s[i + 1..], plus))
      && (c != PERCENT && !(c == PLUS && plus) ==> Decode(s[i..], plus) == [c] + Decode(s[i + 1..], plus))
  {
    hide Decode, HexVal;
    DecodeStep(s[i..], plus);
    assert s[i..][1..] == s[i + 1..];
    if i + 3 <= |s| {
      assert s[i..][3..] == s[i + 3..] && s[i..][1] == s[i + 1] && s[i..][2] == s[i + 2];
      assert Escape(s[i..], 0) == Escape(s, i);
    }
  }

  lemma Appended(a: seq<octet>, c: octet, d: seq<octet>)
    ensures a + [c] + d == a + ([c] + d)
  {
  }

  lemma DecodeEnd(s: seq<octet>, plus: bool)
    requires s == []
    ensures Decode(s, plus) == []
  {
  }

  /** Decode, one byte or escape at a time. */
  lemma DecodeStep(s: seq<octet>, plus: bool)
    requires s != []
    ensures s[0] == PERCENT && |s| < 3 ==> Decode(s, plus) == s
    ensures s[0] == PERCENT && |s| >= 3 && Escape(s, 0) ==>
      Decode(s, plus) == [HexVal(s[1]) * 16 + HexVal(s[2])] + Decode(s[3..], plus)
    ensures s[0] == PERCENT && |s| >= 3 && !Escape(s, 0) ==> Decode(s, plus) == [PERCENT] + Decode(s[1..], plus)
    ensures s[0] == PLUS && plus ==> Decode(s, plus) == [SPACE] + Decode(s[1..], plus)
    ensures Plain(s[0], plus) ==> Decode(s, plus) == [s[0]] + Decode(s[1..], plus)
  {
  }

  // ---- encoding

  /** AppendQuotedArg (plus) and appendQuotedPath, byte by byte. */
  function Quote1(c: octet, plus: bool): seq<octet> {
    if plus && c == SPACE then [PLUS]
    else if (if plus then Unreserved(c) else PathSafe(c)) then [c]
    else [PERCENT, UpperDigit(c / 16), UpperDigit(c % 16)]
  }

  function Quote(s: seq<octet>, plus: bool): seq<octet> {
    if s == [] then [] else Quote1(s[0], plus) + Quote(s[1..], plus)
  }

  /** Decoding takes off exactly one quoted byte. */
  lemma DecodeQuote1(c: octet, rest: seq<octet>, plus: bool)
    ensures Decode(Quote1(c, plus) + rest, plus) == [c] + Decode(rest, plus)
  {
    var s := Quote1(c, plus) + rest;
    if |Quote1(c, plus)| == 1 {
      assert s[1..] == rest;
    } else {
      assert s[3..] == rest && Escape(s, 0);
    }
  }

  /** Decoding undoes quoting, for all bytes. */
  lemma {:induction false} DecodeQuote(s: seq<octet>, plus: bool)
    ensures Decode(Quote(s, plus), plus) == s
  {
    if s != [] {
      DecodeQuote(s[1..], plus);
      DecodeQuote1(s[0], Quote(s[1..], plus), plus);
    }
  }

  lemma {:induction false} QuoteConcat(s: seq<octet>, t: seq<octet>, plus: bool)
    ensures Quote(s + t, plus) == Quote(s, plus) + Quote(t, plus)
  {
    if s == [] {
      assert s + t == t;
    } else {
      assert (s + t)[1..] == s[1..] + t;
      QuoteConcat(s[1..], t, plus);
    }
  }

  /** The quoting loop, behind a copy of the bytes that need none. */
  method QuoteAppend(dst: seq<octet>, src: seq<octet>, plus: bool) returns (out: seq<octet>)
    ensures out == dst + Quote(src, plus)
  {
    hide Quote;
    var i := 0;
    QuoteNone(src[..0], plus);
    while i < |src| && (if plus then Unreserved(src[i]) else PathSafe(src[i]))
      invariant 0 <= i <= |src| && Quote(src[..i], plus) == src[..i]
    {
      QuoteNext(src, i, plus);
      assert src[..i + 1] == src[..i] + [src[i]];
      i := i + 1;
    }
    out := dst + src[..i];
    while i < |src|
      invariant 0 <= i <= |src| && out == dst + Quote(src[..i], plus)
    {
      QuoteNext(src, i, plus);
      var c := src[i];
      if plus && c == SPACE {
        out := out + [PLUS];
      } else if if plus then Unreserved(c) else PathSafe(c) {
        out := out + [c];
      } else {
        out := out + [PERCENT, UpperDigit(c / 16), UpperDigit(c % 16)];
      }
      i := i + 1;
    }
    assert src[..i] == src;
  }

  lemma QuoteNone(s: seq<octet>, plus: bool)
    requires s == []
    ensures Quote(s, plus) == []
  {
  }

  lemma QuoteNext(s: seq<octet>, i: nat, plus: bool)
    requires i < |s|
    ensures Quote(s[..i + 1], plus) == Quote(s[..i], plus) + Quote1(s[i], plus)
  {
    assert s[..i + 1] == s[..i] + [s[i]];
    QuoteConcat(s[..i], [s[i]], plus);
    assert [s[i]][1..] == [];
  }

  // ---- the tables, written out

  function Code(c: char): octet { if c as int < 256 then c as int else 0 }

  ghost predicate Among(c: octet, marks: string) { exists i :: 0 <= i < |marks| && Code(marks[i]) == c }

  const UpperHex := "0123456789ABCDEF"
  const LowerHex := "0123456789abcdef"

  /** Letters and digits stand for themselves; so do - . _ ~ and, in a path, $ & + , / : ; = @. A space in an
      argument is a plus sign, and every other byte is a percent sign with two upper-case hex digits. */
  lemma QuotePrints(c: octet, plus: bool)
    ensures var self :=
        || 48 <= c <= 57 || 65 <= c <= 90 || 97 <= c <= 122
        || Among(c, if plus then "-._~" else "-._~$&+,/:;=@");
      Quote1(c, plus) ==
        if self then [c]
        else if plus && c == Code(' ') then [Code('+')]
        else [Code('%'), Code(UpperHex[c / 16]), Code(UpperHex[c % 16])]
  {
    Marks(c);
    HexDigits(c / 16);
    HexDigits(c % 16);
  }

  lemma Marks(c: octet)
    ensures Among(c, "-._~") <==> c in {45, 46, 95, 126}
    ensures Among(c, "-._~$&+,/:;=@") <==> c in {45, 46, 95, 126, 36, 38, 43, 44, 47, 58, 59, 61, 64}
  {
    var m := "-._~$&+,/:;=@";
    assert Code("-._~"[0]) == 45 && Code("-._~"[1]) == 46 && Code("-._~"[2]) == 95 && Code("-._~"[3]) == 126;
    assert Code(m[0]) == 45 && Code(m[1]) == 46 && Code(m[2]) == 95 && Code(m[3]) == 126 && Code(m[4]) == 36;
    assert Code(m[5]) == 38 && Code(m[6]) == 43 && Code(m[7]) == 44 && Code(m[8]) == 47 && Code(m[9]) == 58;
    assert Code(m[10]) == 59 && Code(m[11]) == 61 && Code(m[12]) == 64;
  }

  /** The hex digits and their values. */
  lemma HexDigits(k: nat)
    requires k < 16
    ensures UpperDigit(k) == Code(UpperHex[k]) && HexVal(Code(UpperHex[k])) == k && HexVal(Code(LowerHex[k])) == k
  {
  }

  /** An escape with digits of either case stands for the byte with that number. */
  lemma EscapeDecodes(j: nat, k: nat, s: seq<octet>, plus: bool, upper: bool)
    requires j < 16 && k < 16
    ensures var digits := if upper then UpperHex else LowerHex;
      Decode([PERCENT, Code(digits[j]), Code(digits[k])] + s, plus) == [16 * j + k] + Decode(s, plus)
  {
    hide HexVal, UpperDigit, Code, Decode;
    HexDigits(j);
    HexDigits(k);
    var digits := if upper then UpperHex else LowerHex;
    var e := [PERCENT, Code(digits[j]), Code(digits[k])] + s;
    assert e[3..] == s && Escape(e, 0);
    DecodeStep(e, plus);
  }
}
