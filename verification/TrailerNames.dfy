/** Names in the trailer section: which are forbidden there, and how they are written
    (fasthttp/header.go:936-947, 3342-3395, 4068-4088). */
module TrailerNames {
  import opened Common
  import opened Swar
  import opened HeaderBlock

  type Name = seq<byte>

  // ---- letter case

  function LowerAll(s: Name): (r: Name)
    ensures |r| == |s| && forall i :: 0 <= i < |s| ==> r[i] == Lower(s[i])
  {
    if s == [] then [] else LowerAll(s[..|s| - 1]) + [Lower(s[|s| - 1])]
  }

  function Upper(c: byte): byte { if 0x61 <= c <= 0x7a then c - 0x20 else c }

  const DASH: byte := 45

  /** A key with a capital at its start and behind each dash. */
  function Canon(s: Name): (r: Name)
    ensures |r| == |s|
  {
    if s == [] then []
    else
      var front := Canon(s[..|s| - 1]);
      front + [if AtCapital(front) then Upper(s[|s| - 1]) else Lower(s[|s| - 1])]
  }

  predicate AtCapital(front: Name) { front == [] || front[|front| - 1] == DASH }

  /** normalizeHeaderKeyValidated, in place. */
  method Normalize(b: array<byte>, disable: bool)
    modifies b
    ensures b[..] == if disable then old(b[..]) else Canon(old(b[..]))
  {
    hide Canon, Upper, Lower;
    if disable { return; }
    ghost var s := b[..];
    var upper, i := true, 0;
    CanonNone();
    assert s[..0] == [];
    while i < b.Length
      invariant 0 <= i <= b.Length && b[..i] == Canon(s[..i]) && upper == AtCapital(b[..i])
      invariant forall k :: i <= k < b.Length ==> b[k] == s[k]
    {
      CanonNext(s, i);
      ghost var front := b[..i];
      var c := if upper then Upper(b[i]) else Lower(b[i]);
      upper := c == DASH;
      b[i] := c;
      assert b[..i + 1] == front + [c];
      i := i + 1;
    }
    assert s[..i] == s && b[..i] == b[..];
  }

  lemma CanonNone()
    ensures Canon([]) == []
  {
  }

  lemma CanonNext(s: Name, i: nat)
    requires i < |s|
    ensures Canon(s[..i + 1]) == Canon(s[..i]) + [if AtCapital(Canon(s[..i])) then Upper(s[i]) else Lower(s[i])]
  {
    assert s[..i + 1][..i] == s[..i];
  }

  /** A letter is a capital at the start and behind a dash, and small elsewhere. */
  lemma {:induction false} CanonAt(s: Name, i: nat)
    requires i < |s|
    ensures Canon(s)[i] == if i == 0 || s[i - 1] == 45 then Upper(s[i]) else Lower(s[i])
  {
    var front, last := s[..|s| - 1], s[|s| - 1];
    if i < |s| - 1 {
      CanonAt(front, i);
      assert Canon(s)[i] == Canon(front)[i];
    } else if i > 0 {
      CanonAt(front, i - 1);
      DashStays(s[i - 1]);
    }
  }

  lemma DashStays(c: byte)
    ensures Upper(c) == DASH <==> c == 45
    ensures Lower(c) == DASH <==> c == 45
  {
  }

  /** Capitals and small letters are thirty-two apart; other bytes have no case. */
  lemma Cases(c: byte)
    ensures 0x41 <= c <= 0x5a ==> Upper(c) == c && Lower(c) == c + 32
    ensures 0x61 <= c <= 0x7a ==> Upper(c) == c - 32 && Lower(c) == c
    ensures !(0x41 <= c <= 0x5a) && !(0x61 <= c <= 0x7a) ==> Upper(c) == c && Lower(c) == c
  {
  }

  lemma CaseOnly(c: byte)
    ensures Lower(Upper(c)) == Lower(c) && Lower(Lower(c)) == Lower(c)
    ensures FieldByte(Upper(c)) == FieldByte(c) && FieldByte(Lower(c)) == FieldByte(c)
  {
  }

  /** Canonicalizing changes nothing but letter case. */
  lemma {:induction false} CanonFolds(s: Name)
    ensures LowerAll(Canon(s)) == LowerAll(s)
    ensures (forall i :: 0 <= i < |s| ==> FieldByte(s[i])) ==> forall i :: 0 <= i < |s| ==> FieldByte(Canon(s)[i])
  {
    hide FieldByte, Lower, Upper, LowerAll;
    if s != [] {
      var front, last := s[..|s| - 1], s[|s| - 1];
      CanonFolds(front);
      CaseOnly(last);
      CanonNext(s, |s| - 1);
      assert s[..|s|] == s;
      var c := Canon(s);
      hide Canon;
      forall i | 0 <= i < |s| ensures LowerAll(c)[i] == LowerAll(s)[i] {
        if i < |s| - 1 {
          assert c[i] == Canon(front)[i] && s[i] == front[i];
          assert LowerAll(Canon(front))[i] == LowerAll(front)[i];
        }
      }
      forall i | 0 <= i < |s| && forall k :: 0 <= k < |s| ==> FieldByte(s[k]) ensures FieldByte(c[i]) {
        if i < |s| - 1 { assert c[i] == Canon(front)[i]; }
      }
    }
  }

  // ---- forbidden names, in lower case

  function Authorization(): Name { [97, 117, 116, 104, 111, 114, 105, 122, 97, 116, 105, 111, 110] }

  function ContentDash(): Name { [99, 111, 110, 116, 101, 110, 116, 45] }

  function EncodingWord(): Name { [101, 110, 99, 111, 100, 105, 110, 103] }

  function LengthWord(): Name { [108, 101, 110, 103, 116, 104] }

  function TypeWord(): Name { [116, 121, 112, 101] }

  function RangeWord(): Name { [114, 97, 110, 103, 101] }

  function Connection(): Name { [99, 111, 110, 110, 101, 99, 116, 105, 111, 110] }

  function Cookie(): Name { [99, 111, 111, 107, 105, 101] }

  function Expect(): Name { [101, 120, 112, 101, 99, 116] }

  function Host(): Name { [104, 111, 115, 116] }

  function KeepAlive(): Name { [107, 101, 101, 112, 45, 97, 108, 105, 118, 101] }

  function Location(): Name { [108, 111, 99, 97, 116, 105, 111, 110] }

  function MaxForwards(): Name { [109, 97, 120, 45, 102, 111, 114, 119, 97, 114, 100, 115] }

  function ProxyDash(): Name { [112, 114, 111, 120, 121, 45] }

  function AuthenticateWord(): Name { [97, 117, 116, 104, 101, 110, 116, 105, 99, 97, 116, 101] }

  function SetCookie(): Name { [115, 101, 116, 45, 99, 111, 111, 107, 105, 101] }

  function Te(): Name { [116, 101] }

  function TrailerWord(): Name { [116, 114, 97, 105, 108, 101, 114] }

  function TransferEncoding(): Name {
    [116, 114, 97, 110, 115, 102, 101, 114, 45, 101, 110, 99, 111, 100, 105, 110, 103]
  }

  function WwwAuthenticate(): Name { [119, 119, 119, 45, 97, 117, 116, 104, 101, 110, 116, 105, 99, 97, 116, 101] }

  function XForwarded(): Name { [120, 45, 102, 111, 114, 119, 97, 114, 100, 101, 100] }

  function XRealIp(): Name { [120, 45, 114, 101, 97, 108, 45, 105, 112] }

  predicate Starts(s: Name, p: Name) { |p| <= |s| && s[..|p|] == p }

  /** The names of section 6.5.1 of RFC 9110 that the source refuses, and a few more. */
  predicate Listed(n: Name) {
    || n == Authorization() || n == ContentDash() + EncodingWord() || n == ContentDash() + LengthWord()
    || n == ContentDash() + TypeWord() || n == ContentDash() + RangeWord() || n == Connection() || n == Cookie()
    || n == Expect() || n == Host() || n == KeepAlive() || n == Location() || n == MaxForwards()
    || n == ProxyDash() + Connection() || n == ProxyDash() + AuthenticateWord() || n == ProxyDash() + Authorization()
    || n == RangeWord() || n == SetCookie() || n == Te() || n == TrailerWord() || n == TransferEncoding()
    || n == WwwAuthenticate() || Starts(n, XForwarded()) || Starts(n, XRealIp())
  }

  /** Letter case does not matter. */
  predicate Forbidden(key: Name) { key == [] || Listed(LowerAll(key)) }

  /** caseInsensitiveCompare with a name in lower case. */
  predicate Same(key: Name, n: Name) { LowerAll(key) == n }

  /** isBadTrailer, which looks at the first letter and at common prefixes first. */
  predicate IsBadTrailer(key: Name) {
    if key == [] then true
    else
      var c := key[0] | 0x20;
      if c == 97 then Same(key, Authorization())
      else if c == 99 then
        if |key| >= 12 && Same(key[..8], ContentDash()) then
          || Same(key[8..], EncodingWord()) || Same(key[8..], LengthWord()) || Same(key[8..], TypeWord())
          || Same(key[8..], RangeWord())
        else Same(key, Connection()) || Same(key, Cookie())
      else if c == 101 then Same(key, Expect())
      else if c == 104 then Same(key, Host())
      else if c == 107 then Same(key, KeepAlive())
      else if c == 108 then Same(key, Location())
      else if c == 109 then Same(key, MaxForwards())
      else if c == 112 then
        && |key| >= 16 && Same(key[..6], ProxyDash())
        && (Same(key[6..], Connection()) || Same(key[6..], AuthenticateWord()) || Same(key[6..], Authorization()))
      else if c == 114 then Same(key, RangeWord())
      else if c == 115 then Same(key, SetCookie())
      else if c == 116 then Same(key, Te()) || Same(key, TrailerWord()) || Same(key, TransferEncoding())
      else if c == 119 then Same(key, WwwAuthenticate())
      else if c == 120 then (|key| >= 11 && Same(key[..11], XForwarded())) || (|key| >= 9 && Same(key[..9], XRealIp()))
      else false
  }

  /** The first letters, by which the names are told apart. */
  lemma Letters()
    ensures Authorization()[0] == 97 && ContentDash()[0] == 99 && Connection()[0] == 99 && Cookie()[0] == 99
    ensures Expect()[0] == 101 && Host()[0] == 104 && KeepAlive()[0] == 107 && Location()[0] == 108
    ensures MaxForwards()[0] == 109 && ProxyDash()[0] == 112 && RangeWord()[0] == 114 && SetCookie()[0] == 115
    ensures Te()[0] == 116 && TrailerWord()[0] == 116 && TransferEncoding()[0] == 116 && WwwAuthenticate()[0] == 119
    ensures XForwarded()[0] == 120 && XRealIp()[0] == 120
    ensures |ContentDash()| == 8 && |ProxyDash()| == 6 && |XForwarded()| == 11 && |XRealIp()| == 9
    ensures |EncodingWord()| >= 4 && |LengthWord()| >= 4 && |TypeWord()| >= 4 && |RangeWord()| >= 4
    ensures |Connection()| == 10 && |Cookie()| == 6 && |AuthenticateWord()| >= 10 && |Authorization()| >= 10
    ensures Connection()[3] != ContentDash()[3] && Cookie()[3] != ContentDash()[3]
  {
  }

  lemma FoldLetter(c: byte, l: byte)
    requires 0x61 <= l <= 0x7a
    ensures c | 0x20 == l <==> Lower(c) == l
  {
  }

  lemma LowerSlice(s: Name, i: nat, j: nat)
    requires i <= j <= |s|
    ensures LowerAll(s)[i..j] == LowerAll(s[i..j])
  {
    hide LowerAll, Lower;
    assert forall k :: 0 <= k < j - i ==> LowerAll(s)[i..j][k] == Lower(s[i + k]);
  }

  lemma SplitAt(l: Name, p: Name, q: Name)
    ensures l == p + q <==> |p| <= |l| && l[..|p|] == p && l[|p|..] == q
  {
    if |p| <= |l| { assert l == l[..|p|] + l[|p|..]; }
    assert (p + q)[..|p|] == p && (p + q)[|p|..] == q;
  }

  /** Comparing prefix and rest is comparing the whole. */
  lemma SameParts(key: Name, p: Name, q: Name)
    ensures LowerAll(key) == p + q <==> |p| <= |key| && Same(key[..|p|], p) && Same(key[|p|..], q)
  {
    hide LowerAll, Lower;
    SplitAt(LowerAll(key), p, q);
    if |p| <= |key| {
      LowerSlice(key, 0, |p|);
      LowerSlice(key, |p|, |key|);
      assert key[0..|p|] == key[..|p|] && key[|p|..|key|] == key[|p|..];
    }
  }

  lemma SamePrefix(key: Name, p: Name)
    ensures Starts(LowerAll(key), p) <==> |p| <= |key| && Same(key[..|p|], p)
  {
    hide LowerAll, Lower;
    if |p| <= |key| { LowerSlice(key, 0, |p|); }
  }

  /** A listed name starts with one of these letters, which narrows down which name it is. */
  lemma ByLetter(n: Name)
    requires n != [] && Listed(n)
    ensures n[0] in {97, 99, 101, 104, 107, 108, 109, 112, 114, 115, 116, 119, 120}
    ensures n[0] == 97 ==> n == Authorization()
    ensures n[0] == 99 ==>
      || n == ContentDash() + EncodingWord() || n == ContentDash() + LengthWord() || n == ContentDash() + TypeWord()
      || n == ContentDash() + RangeWord() || n == Connection() || n == Cookie()
    ensures n[0] == 101 ==> n == Expect()
    ensures n[0] == 104 ==> n == Host()
    ensures n[0] == 107 ==> n == KeepAlive()
    ensures n[0] == 108 ==> n == Location()
    ensures n[0] == 109 ==> n == MaxForwards()
    ensures n[0] == 112 ==>
      n == ProxyDash() + Connection() || n == ProxyDash() + AuthenticateWord() || n == ProxyDash() + Authorization()
    ensures n[0] == 114 ==> n == RangeWord()
    ensures n[0] == 115 ==> n == SetCookie()
    ensures n[0] == 116 ==> n == Te() || n == TrailerWord() || n == TransferEncoding()
    ensures n[0] == 119 ==> n == WwwAuthenticate()
    ensures n[0] == 120 ==> Starts(n, XForwarded()) || Starts(n, XRealIp())
  {
    Letters();
    hide Authorization, ContentDash, EncodingWord, LengthWord, TypeWord, RangeWord, Connection, Cookie, Expect, Host,
         KeepAlive, Location, MaxForwards, ProxyDash, AuthenticateWord, SetCookie, Te, TrailerWord, TransferEncoding,
         WwwAuthenticate, XForwarded, XRealIp;
  }

  predicate Folds(c: byte, l: byte) { c | 0x20 == l <==> Lower(c) == l }

  /** The letter that the switch looks at is that of the name in lower case. */
  lemma SwitchLetter(c: byte)
    ensures Folds(c, 97) && Folds(c, 99) && Folds(c, 101) && Folds(c, 104) && Folds(c, 107) && Folds(c, 108)
    ensures Folds(c, 109)
    ensures Folds(c, 112) && Folds(c, 114) && Folds(c, 115) && Folds(c, 116) && Folds(c, 119) && Folds(c, 120)
  {
    FoldLetter(c, 97);
    FoldLetter(c, 99);
    FoldLetter(c, 101);
    FoldLetter(c, 104);
    FoldLetter(c, 107);
    FoldLetter(c, 108);
    FoldLetter(c, 109);
    FoldLetter(c, 112);
    FoldLetter(c, 114);
    FoldLetter(c, 115);
    FoldLetter(c, 116);
    FoldLetter(c, 119);
    FoldLetter(c, 120);
  }

  lemma PrefixFacts(key: Name)
    ensures var n := LowerAll(key);
      && (forall q :: q in {EncodingWord(), LengthWord(), TypeWord(), RangeWord()} ==>
            (n == ContentDash() + q <==> |key| >= 8 && Same(key[..8], ContentDash()) && Same(key[8..], q)))
      && (forall q :: q in {Connection(), AuthenticateWord(), Authorization()} ==>
            (n == ProxyDash() + q <==> |key| >= 6 && Same(key[..6], ProxyDash()) && Same(key[6..], q)))
      && (Starts(n, XForwarded()) <==> |key| >= 11 && Same(key[..11], XForwarded()))
      && (Starts(n, XRealIp()) <==> |key| >= 9 && Same(key[..9], XRealIp()))
  {
    Letters();
    hide Authorization, ContentDash, EncodingWord, LengthWord, TypeWord, RangeWord, Connection, Cookie, Expect, Host,
         KeepAlive, Location, MaxForwards, ProxyDash, AuthenticateWord, SetCookie, Te, TrailerWord, TransferEncoding,
         WwwAuthenticate, XForwarded, XRealIp, LowerAll, Lower;
    forall q: Name ensures LowerAll(key) == ContentDash() + q <==>
        |key| >= 8 && Same(key[..8], ContentDash()) && Same(key[8..], q)
    {
      SameParts(key, ContentDash(), q);
    }
    forall q: Name ensures LowerAll(key) == ProxyDash() + q <==>
        |key| >= 6 && Same(key[..6], ProxyDash()) && Same(key[6..], q)
    {
      SameParts(key, ProxyDash(), q);
    }
    SamePrefix(key, XForwarded());
    SamePrefix(key, XRealIp());
  }

  lemma BadIsListed(key: Name)
    requires key != [] && IsBadTrailer(key)
    ensures Listed(LowerAll(key))
  {
    PrefixFacts(key);
    hide Authorization, ContentDash, EncodingWord, LengthWord, TypeWord, RangeWord, Connection, Cookie, Expect, Host,
         KeepAlive, Location, MaxForwards, ProxyDash, AuthenticateWord, SetCookie, Te, TrailerWord, TransferEncoding,
         WwwAuthenticate, XForwarded, XRealIp, LowerAll, Lower;
  }

  lemma ListedIsBad(key: Name)
    requires key != [] && Listed(LowerAll(key))
    ensures IsBadTrailer(key)
  {
    Letters();
    PrefixFacts(key);
    SwitchLetter(key[0]);
    hide Authorization, ContentDash, EncodingWord, LengthWord, TypeWord, RangeWord, Connection, Cookie, Expect, Host,
         KeepAlive, Location, MaxForwards, ProxyDash, AuthenticateWord, SetCookie, Te, TrailerWord, TransferEncoding,
         WwwAuthenticate, XForwarded, XRealIp, LowerAll, Lower;
    hide Listed;
    ByLetter(LowerAll(key));
    assert LowerAll(key)[0] == Lower(key[0]);
  }

  /** The switch refuses exactly the listed names, in any letter case. */
  lemma IsBadExact(key: Name)
    ensures IsBadTrailer(key) <==> Forbidden(key)
  {
    if key != [] {
      if IsBadTrailer(key) { BadIsListed(key); }
      if Listed(LowerAll(key)) { ListedIsBad(key); }
    }
  }

  /** Canonicalizing a name does not change whether it is forbidden. */
  lemma CanonKeepsForbidden(key: Name)
    ensures Forbidden(Canon(key)) <==> Forbidden(key)
  {
    hide Listed;
    CanonFolds(key);
  }

  // ---- names listed in a Trailer field

  /** isValidTrailerKey */
  predicate ValidKey(key: Name) { key != [] && forall i :: 0 <= i < |key| ==> FieldByte(key[i]) }

  /** How a listed item becomes a name: None if it is malformed or forbidden. */
  function ReadName(item: Name, disable: bool): (n: Option<Name>)
    ensures n.Some? ==> ValidKey(n.value) && !Forbidden(n.value)
    ensures n.Some? <==> ValidKey(Trim(item)) && !Forbidden(Trim(item))
  {
    var key := Trim(item);
    IsBadExact(key);
    CanonKeepsForbidden(key);
    CanonFolds(key);
    if !ValidKey(key) || IsBadTrailer(key) then None else Some(if disable then key else Canon(key))
  }

  /** The list, name by name. */
  lemma ListedAre(n: Name)
    ensures Listed(n) <==>
      || n in [Authorization(), Connection(), Cookie(), Expect(), Host(), KeepAlive(), Location(), MaxForwards()]
      || n in [RangeWord(), SetCookie(), Te(), TrailerWord(), TransferEncoding(), WwwAuthenticate()]
      || n in [ContentDash() + EncodingWord(), ContentDash() + LengthWord(), ContentDash() + TypeWord()]
      || n in [ContentDash() + RangeWord(), ProxyDash() + Connection(), ProxyDash() + AuthenticateWord()]
      || n in [ProxyDash() + Authorization()] || Starts(n, XForwarded()) || Starts(n, XRealIp())
  {
    hide Authorization, ContentDash, EncodingWord, LengthWord, TypeWord, RangeWord, Connection, Cookie, Expect, Host,
         KeepAlive, Location, MaxForwards, ProxyDash, AuthenticateWord, SetCookie, Te, TrailerWord, TransferEncoding,
         WwwAuthenticate, XForwarded, XRealIp;
  }
}
