/** Eight bytes at once (fasthttp/swar.go): the word tests agree with the byte tests. */
module Swar {
  type byte = bv8

  const LowBits: bv64 := 0x0101010101010101
  const HighBits: bv64 := 0x8080808080808080

  /** The word whose lanes are the given bytes, the first one lowest. */
  function Word(a: byte, b: byte, c: byte, d: byte, e: byte, f: byte, g: byte, h: byte): bv64 {
    (a as bv64) | ((b as bv64) << 8) | ((c as bv64) << 16) | ((d as bv64) << 24)
    | ((e as bv64) << 32) | ((f as bv64) << 40) | ((g as bv64) << 48) | ((h as bv64) << 56)
  }

  function LoadWord(b: seq<byte>): bv64
    requires |b| >= 8
  {
    Word(b[0], b[1], b[2], b[3], b[4], b[5], b[6], b[7])
  }

  /** The bytes that storeWord puts into a slice. */
  function Lanes(w: bv64): seq<byte> {
    [(w & 0xff) as byte, ((w >> 8) & 0xff) as byte, ((w >> 16) & 0xff) as byte, ((w >> 24) & 0xff) as byte,
     ((w >> 32) & 0xff) as byte, ((w >> 40) & 0xff) as byte, ((w >> 48) & 0xff) as byte, ((w >> 56) & 0xff) as byte]
  }

  predicate IsCTL(c: byte) { c < 0x20 || c == 0x7f }

  function Lower(c: byte): byte { if 0x41 <= c <= 0x5a then c + 0x20 else c }

  predicate AnyByteIsCTL(w: bv64) {
    var x := w ^ 0x7f7f7f7f7f7f7f7f;
    (((w - 0x2020202020202020) & !w) | ((x - LowBits) & !x)) & HighBits != 0
  }

  function LowercaseWord(w: bv64): bv64 {
    var ascii := w & !HighBits;
    var atLeastA := ascii + 0x3f3f3f3f3f3f3f3f;
    var pastZ := ascii + 0x2525252525252525;
    w | ((atLeastA & !pastZ & !w & HighBits) >> 2)
  }

  lemma AnyCTLLanes(a: byte, b: byte, c: byte, d: byte, e: byte, f: byte, g: byte, h: byte)
    ensures AnyByteIsCTL(Word(a, b, c, d, e, f, g, h)) <==>
      IsCTL(a) || IsCTL(b) || IsCTL(c) || IsCTL(d) || IsCTL(e) || IsCTL(f) || IsCTL(g) || IsCTL(h)
  {
  }

  /** The word test is exact: a borrow never makes a clean word look dirty. */
  lemma AnyByteIsCTLExact(b: seq<byte>)
    requires |b| >= 8
    ensures AnyByteIsCTL(LoadWord(b)) <==> exists i :: 0 <= i < 8 && IsCTL(b[i])
  {
    hide AnyByteIsCTL, Word, IsCTL;
    AnyCTLLanes(b[0], b[1], b[2], b[3], b[4], b[5], b[6], b[7]);
  }

  lemma LowerLowLanes(w: bv64)
    ensures var x := LowercaseWord(w);
      && (x & 0xff) as byte == Lower((w & 0xff) as byte)
      && ((x >> 8) & 0xff) as byte == Lower(((w >> 8) & 0xff) as byte)
      && ((x >> 16) & 0xff) as byte == Lower(((w >> 16) & 0xff) as byte)
      && ((x >> 24) & 0xff) as byte == Lower(((w >> 24) & 0xff) as byte)
  {
  }

  lemma LowerHighLanes(w: bv64)
    ensures var x := LowercaseWord(w);
      && ((x >> 32) & 0xff) as byte == Lower(((w >> 32) & 0xff) as byte)
      && ((x >> 40) & 0xff) as byte == Lower(((w >> 40) & 0xff) as byte)
      && ((x >> 48) & 0xff) as byte == Lower(((w >> 48) & 0xff) as byte)
      && ((x >> 56) & 0xff) as byte == Lower(((w >> 56) & 0xff) as byte)
  {
  }

  lemma StoreLoad(a: byte, b: byte, c: byte, d: byte, e: byte, f: byte, g: byte, h: byte)
    ensures Lanes(Word(a, b, c, d, e, f, g, h)) == [a, b, c, d, e, f, g, h]
  {
  }

  lemma LowerLanes(w: bv64)
    ensures |Lanes(w)| == 8 && Lanes(LowercaseWord(w)) == seq(8, i requires 0 <= i < 8 => Lower(Lanes(w)[i]))
  {
    hide LowercaseWord, Lower;
    LowerLowLanes(w);
    LowerHighLanes(w);
  }

  /** Lowercasing a word lowercases each of its bytes and touches no other bit. */
  lemma LowercaseWordExact(b: seq<byte>)
    requires |b| >= 8
    ensures var x := Lanes(LowercaseWord(LoadWord(b))); |x| == 8 && forall k :: 0 <= k < 8 ==> x[k] == Lower(b[k])
  {
    hide LowercaseWord, Word, Lower, Lanes;
    StoreLoad(b[0], b[1], b[2], b[3], b[4], b[5], b[6], b[7]);
    LowerLanes(LoadWord(b));
  }

  /** One turn of the word loop of lowercaseBytes. */
  method LowercaseEight(b: array<byte>, i: nat)
    requires i + 8 <= b.Length
    modifies b
    ensures forall k :: i <= k < i + 8 ==> b[k] == Lower(old(b[k]))
    ensures forall k :: 0 <= k < b.Length && !(i <= k < i + 8) ==> b[k] == old(b[k])
  {
    hide LowercaseWord, Word, Lower, Lanes, LoadWord;
    LowercaseWordExact(b[i..i + 8]);
    var w := Lanes(LowercaseWord(LoadWord(b[i..i + 8])));
    forall k | i <= k < i + 8 { b[k] := w[k - i]; }
  }

  /** bytesconv.go: eight bytes at a time, then the rest one by one. */
  method LowercaseBytes(b: array<byte>)
    modifies b
    ensures forall k :: 0 <= k < b.Length ==> b[k] == Lower(old(b[k]))
  {
    hide Lower;
    var i := 0;
    while i + 8 <= b.Length
      invariant 0 <= i <= b.Length
      invariant forall k :: 0 <= k < i ==> b[k] == Lower(old(b[k]))
      invariant forall k :: i <= k < b.Length ==> b[k] == old(b[k])
    {
      LowercaseEight(b, i);
      i := i + 8;
    }
    while i < b.Length
      invariant 0 <= i <= b.Length
      invariant forall k :: 0 <= k < i ==> b[k] == Lower(old(b[k]))
      invariant forall k :: i <= k < b.Length ==> b[k] == old(b[k])
    {
      b[i] := Lower(b[i]);
      i := i + 1;
    }
  }
}
