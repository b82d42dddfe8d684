/** validateIPv6Literal and its loops (fasthttp/ipv6.go:14-195). */
module IPv6Literals {
  import opened Common
  import opened Octets
  import opened IPv6Grammar

  // ---- parseIPv6Hextets

  function Plus(n: nat, s: Option<Shape>): Option<Shape> {
    if s.Some? then Some(s.value.(groups := s.value.groups + n)) else None
  }

  /** What may come where a group starts; `seen` tells that :: has been. */
  function AtGroup(t: Word, seen: bool): Option<Shape> {
    if !seen then ListDouble(t)
    else
      match List(t)
      case None => None
      case Some(n) => Some(Shape(n, true))
  }

  /** What may come right behind a group. */
  function BehindGroup(t: Word, seen: bool): Option<Shape> {
    if t == [] then Some(Shape(0, seen))
    else if DoubleAt(t, 0) then (if seen then None else AfterDouble(t[2..]))
    else if t[0] == COLON then AtGroup(t[1..], seen)
    else None
  }

  /** A group of k digits, taken off. */
  lemma GroupStep(t: Word, seen: bool, k: nat)
    requires k <= |t| && k <= 4 && (forall i :: 0 <= i < k ==> IsHex(t[i])) && (k == 4 || k == |t| || !IsHex(t[k]))
    ensures k == 0 ==> AtGroup(t, seen) == None
    ensures k < |t| && t[k] != COLON ==> AtGroup(t, seen) == None
    ensures k > 0 && (k == |t| || t[k] == COLON) ==> AtGroup(t, seen) == Plus(1, BehindGroup(t[k..], seen))
  {
    ColonNoHex();
    var p := Prefix(t, IsHex);
    assert p >= k;
    if k == |t| || !IsHex(t[k]) { PrefixIs(t, IsHex, k); }
    hide Prefix;
    if k > 0 && k < |t| && t[k] == COLON {
      assert t[k..][1..] == t[k + 1..];
      if DoubleAt(t, k) {
        assert t[k..][2..] == t[k + 2..];
        ColonFails(t[k + 1..]);
      }
    }
  }

  lemma ColonFails(t: Word)
    requires t == [] || !IsHex(t[0])
    ensures List(t) == None && ListDouble(t) == None
  {
    PrefixIs(t, IsHex, 0);
  }

  datatype Phase = Start | AfterColon | JustDouble | AfterGroup

  /** What the rest of s, from i on, has to be. */
  function Rest(s: Word, i: nat, phase: Phase, seen: bool): Option<Shape>
    requires i <= |s|
  {
    match phase
    case Start => Hextets(s)
    case AfterColon => AtGroup(s[i..], seen)
    case JustDouble => AfterDouble(s[i..])
    case AfterGroup => BehindGroup(s[i..], seen)
  }

  /** A single colon. */
  lemma ColonStep(s: Word, i: nat, phase: Phase, seen: bool)
    requires i < |s| && s[i] == COLON && !DoubleAt(s, i) && (phase == Start <==> i == 0)
    requires (phase == JustDouble ==> seen) && phase != AfterColon
    ensures phase != AfterGroup || i + 1 == |s| || !IsHex(s[i + 1]) ==> Rest(s, i, phase, seen) == None
    ensures phase == AfterGroup ==> Rest(s, i, phase, seen) == Rest(s, i + 1, AfterColon, seen)
  {
    ColonNoHex();
    ColonFails(s[i..]);
    assert s[0..] == s;
    assert s[i..][1..] == s[i + 1..];
    if i + 1 == |s| || !IsHex(s[i + 1]) { ColonFails(s[i + 1..]); }
  }

  lemma DoubleStep(s: Word, i: nat, phase: Phase, seen: bool)
    requires DoubleAt(s, i) && (phase == Start <==> i == 0) && (phase == JustDouble ==> seen)
    requires (phase == Start ==> !seen) && phase != AfterColon
    ensures seen ==> Rest(s, i, phase, seen) == None
    ensures !seen ==> Rest(s, i, phase, seen) == AfterDouble(s[i + 2..])
  {
    ColonNoHex();
    ColonFails(s[i..]);
    assert s[i..][2..] == s[i + 2..];
    assert DoubleAt(s[i..], 0);
  }

  lemma StartsGroup(s: Word, i: nat, phase: Phase, seen: bool)
    requires i < |s| && s[i] != COLON && (phase == Start <==> i == 0) && (phase == JustDouble ==> seen)
    requires (phase == Start ==> !seen) && phase != AfterGroup
    ensures Rest(s, i, phase, seen) == AtGroup(s[i..], seen)
  {
    assert s[0..] == s;
  }

  method ParseIPv6Hextets(s: Word) returns (groups: nat, seenDouble: bool, ok: bool)
    ensures ok == Hextets(s).Some?
    ensures ok ==> Hextets(s) == Some(Shape(groups, seenDouble))
  {
    hide *;
    groups, seenDouble := 0, false;
    var n := |s|;
    EmptyFits();
    if n == 0 { return 0, false, true; }
    var i, justSawDouble := 0, false;
    ghost var phase := Start;
    StartRest(s);
    while i < n
      invariant 0 <= i <= n && (phase == Start <==> i == 0) && (justSawDouble <==> phase == JustDouble)
      invariant (phase == JustDouble ==> seenDouble) && (phase == Start ==> !seenDouble)
      invariant phase == AfterColon ==> i < n && s[i] != COLON
      invariant phase == AfterGroup && i < n ==> s[i] == COLON
      invariant Hextets(s) == Plus(groups, Rest(s, i, phase, seenDouble))
    {
      if s[i] == COLON {
        if i + 1 < n && s[i + 1] == COLON {
          IsDouble(s, i);
          DoubleStep(s, i, phase, seenDouble);
          PlusNone(groups);
          if seenDouble || justSawDouble { return 0, false, false; }
          seenDouble, justSawDouble, phase := true, true, JustDouble;
          i := i + 2;
          DoubleRest(s, i);
          continue;
        }
        IsDouble(s, i);
        ColonStep(s, i, phase, seenDouble);
        PlusNone(groups);
        if i == 0 || justSawDouble { return 0, false, false; }
        if i == n - 1 { return 0, false, false; }
        if !IsHex(s[i + 1]) { return 0, false, false; }
        HexNoColon(s[i + 1]);
        i := i + 1;
        phase := AfterColon;
        continue;
      }
      StartsGroup(s, i, phase, seenDouble);
      justSawDouble := false;
      ghost var from := i;
      var cnt := 0;
      while cnt < 4 && i < n && IsHex(s[i])
        invariant 0 <= cnt <= 4 && i == from + cnt <= n
        invariant forall j :: 0 <= j < cnt ==> IsHex(s[from..][j])
      {
        i := i + 1;
        cnt := cnt + 1;
      }
      GroupStep(s[from..], seenDouble, cnt);
      PlusNone(groups);
      if cnt == 0 { return 0, false, false; }
      if i < n && s[i] != COLON { return 0, false, false; }
      assert s[from..][cnt..] == s[i..];
      PlusOne(groups, BehindGroup(s[i..], seenDouble));
      GroupRest(s, i, seenDouble);
      groups := groups + 1;
      phase := AfterGroup;
    }
    EndRest(s, phase, seenDouble);
    PlusSome(groups, seenDouble);
    ok := true;
  }

  lemma EmptyFits()
    ensures Hextets([]) == Some(Shape(0, false))
  {
  }

  lemma StartRest(s: Word)
    ensures Hextets(s) == Plus(0, Rest(s, 0, Start, false))
  {
  }

  lemma IsDouble(s: Word, i: nat)
    ensures DoubleAt(s, i) <==> i + 1 < |s| && s[i] == COLON && s[i + 1] == COLON
  {
  }

  lemma DoubleRest(s: Word, i: nat)
    requires i <= |s|
    ensures Rest(s, i, JustDouble, true) == AfterDouble(s[i..])
  {
  }

  lemma GroupRest(s: Word, i: nat, seen: bool)
    requires i <= |s|
    ensures Rest(s, i, AfterGroup, seen) == BehindGroup(s[i..], seen)
  {
  }

  lemma HexNoColon(c: octet)
    requires IsHex(c)
    ensures c != COLON
  {
  }

  lemma PlusNone(n: nat)
    ensures Plus(n, None) == None
  {
  }

  lemma PlusOne(n: nat, s: Option<Shape>)
    ensures Plus(n, Plus(1, s)) == Plus(n + 1, s)
  {
  }

  lemma PlusSome(n: nat, double: bool)
    ensures Plus(n, Some(Shape(0, double))) == Some(Shape(n, double))
  {
  }

  /** At the end of the input. */
  lemma EndRest(s: Word, phase: Phase, seen: bool)
    requires s != [] && phase != Start && phase != AfterColon && (phase == JustDouble ==> seen)
    ensures Rest(s, |s|, phase, seen) == Some(Shape(0, seen))
  {
    assert s[|s|..] == [];
  }

  // ---- validIPv4

  lemma {:induction false} NumberGrows(s: Word, k: nat)
    requires k <= |s| && forall i :: 0 <= i < |s| ==> IsDigit(s[i])
    ensures 0 <= Number(s[..k]) <= Number(s)
    decreases |s|
  {
    if k == |s| {
      assert s[..k] == s;
      if s != [] {
        var front := s[..|s| - 1];
        NumberGrows(front, 0);
        assert front[..0] == [];
        NumberGrows(front, |s| - 1);
        assert front[..|s| - 1] == front;
      }
    } else {
      NumberGrows(s[..|s| - 1], k);
      assert s[..|s| - 1][..k] == s[..k];
    }
  }

  /** The dec-octet at the start of t: its length, and whether it is one. */
  method ReadOctet(t: Word) returns (k: nat, ok: bool)
    ensures ok == DecOctet(t[..Prefix(t, IsDigit)])
    ensures ok ==> k == Prefix(t, IsDigit)
  {
    hide Prefix, Number;
    var val := 0;
    ghost var p := Prefix(t, IsDigit);
    ghost var d := t[..p];
    k := 0;
    NoNumber();
    assert t[..0] == [];
    while k < |t|
      invariant 0 <= k <= p && k <= 3 && val == Number(t[..k]) && 0 <= val <= 255
    {
      var c := t[k];
      if !IsDigit(c) { break; }
      NumberNext(t, k);
      val := val * 10 + (c as int - 48);
      if val > 255 {
        NumberGrows(d, k + 1);
        assert d[..k + 1] == t[..k + 1];
        return k, false;
      }
      k := k + 1;
      if k > 3 { return k, false; }
    }
    assert k == p;
    if k == 0 { return k, false; }
    if k > 1 && t[0] == 48 { return k, false; }
    return k, true;
  }

  lemma NoNumber()
    ensures Number([]) == 0
  {
  }

  lemma NumberNext(t: Word, k: nat)
    requires k < |t|
    ensures Number(t[..k + 1]) == Number(t[..k]) * 10 + (t[k] as int - 48)
  {
    assert t[..k + 1][..k] == t[..k];
  }

  lemma QuadStep(t: Word, parts: nat)
    requires parts >= 1
    ensures var k := Prefix(t, IsDigit);
      QuadFrom(t, parts) ==
      (DecOctet(t[..k]) && (if parts == 1 then k == |t| else k < |t| && t[k] == DOT && QuadFrom(t[k + 1..], parts - 1)))
  {
    hide Prefix, DecOctet;
  }

  method ValidIPv4(s: Word) returns (ok: bool)
    ensures ok == QuadFrom(s, 4)
  {
    hide DecOctet, Prefix, QuadFrom;
    var parts, i := 0, 0;
    assert s[0..] == s;
    while parts < 4
      invariant 0 <= parts < 4 && 0 <= i <= |s| && QuadFrom(s, 4) == QuadFrom(s[i..], 4 - parts)
      decreases 4 - parts
    {
      QuadStep(s[i..], 4 - parts);
      var k, good := ReadOctet(s[i..]);
      if !good { return false; }
      i := i + k;
      parts := parts + 1;
      if parts == 4 { return i == |s|; }
      if i >= |s| || s[i] != DOT { return false; }
      assert s[i - k..][k + 1..] == s[i + 1..];
      i := i + 1;
    }
    ok := false;
  }

  // ---- validateIPv6Literal

  const LBRACKET: octet := 91
  const RBRACKET: octet := 93

  /** What stands between the brackets, without a zone; None if brackets or zone are bad. */
  function Inside(host: Word): Option<Word>
    requires host != [] && host[0] == LBRACKET
  {
    var end := IndexByte(host, RBRACKET);
    if end < 0 || end == 1 then None
    else
      var addr := host[1..end];
      var z := IndexByte(addr, PERCENT);
      if z == |addr| - 1 then None else if z >= 0 then Some(addr[..z]) else Some(addr)
  }

  lemma FirstAt(s: Word, c: octet, i: nat)
    requires i < |s| && s[i] == c && c !in s[..i]
    ensures IndexByte(s, c) == i
    decreases i
  {
    if i > 0 {
      assert s[..i][0] == s[0];
      assert s[1..][..i - 1] == s[..i][1..];
      FirstAt(s[1..], c, i - 1);
    }
  }

  lemma Absent(s: Word, c: octet)
    requires c !in s
    ensures IndexByte(s, c) == -1
  {
  }

  /** What is looked at is the text between the brackets, up to a zone that must not be empty. */
  lemma InsideIs(addr: Word, zone: Word, rest: Word)
    requires addr != [] && Code(']') !in addr && Code('%') !in addr && Code(']') !in zone
    ensures Inside([Code('[')] + addr + [Code(']')] + rest) == Some(addr)
    ensures Inside([Code('[')] + addr + [Code('%')] + zone + [Code(']')] + rest) ==
      if zone == [] then None else Some(addr)
    ensures Inside([Code('['), Code(']')] + rest) == None && Inside([Code('[')] + addr) == None
  {
    hide IndexByte;
    var host := [LBRACKET] + addr + [RBRACKET] + rest;
    assert host[..|addr| + 1] == [LBRACKET] + addr && host[1..|addr| + 1] == addr;
    FirstAt(host, RBRACKET, |addr| + 1);
    Absent(addr, PERCENT);
    var zoned := addr + [PERCENT] + zone;
    var far := [LBRACKET] + addr + [PERCENT] + zone + [RBRACKET] + rest;
    assert far[..|zoned| + 1] == [LBRACKET] + zoned && far[1..|zoned| + 1] == zoned;
    FirstAt(far, RBRACKET, |zoned| + 1);
    assert zoned[..|addr|] == addr;
    FirstAt(zoned, PERCENT, |addr|);
    var none := [LBRACKET, RBRACKET] + rest;
    assert none[..1] == [LBRACKET];
    FirstAt(none, RBRACKET, 1);
    Absent([LBRACKET] + addr, RBRACKET);
  }

  method ValidateIPv6Literal(host: Word) returns (ok: bool)
    ensures host == [] || host[0] != LBRACKET ==> ok
    ensures host != [] && host[0] == LBRACKET ==> ok == (Inside(host).Some? && IPv6Address(Inside(host).value))
  {
    hide Accepts, IndexByte;
    if |host| == 0 || host[0] != LBRACKET { return true; }
    var end := IndexByte(host, RBRACKET);
    if end < 0 || end == 1 { return false; }
    var addr := host[1..end];
    var z := IndexByte(addr, PERCENT);
    if z >= 0 {
      if z == |addr| - 1 { return false; }
      addr := addr[..z];
    }
    AcceptsIsGrammar(addr);
    ok := CheckAddress(addr);
  }

  method CheckAddress(addr: Word) returns (ok: bool)
    ensures ok == Accepts(addr)
  {
    hide Hextets, QuadFrom, LastIndexByte;
    if COLON !in addr { return false; }
    var groups, double, good;
    if DOT in addr {
      var lastColon := LastIndexByte(addr, COLON);
      if lastColon < 0 || lastColon == |addr| - 1 {
        NoQuad(addr[lastColon + 1..]);
        return false;
      }
      var quad := ValidIPv4(addr[lastColon + 1..]);
      if !quad { return false; }
      var head := addr[..lastColon];
      var atSplit := lastColon > 0 && addr[lastColon - 1] == COLON;
      if atSplit { head := addr[..lastColon - 1]; }
      groups, double, good := ParseIPv6Hextets(head);
      if !good { return false; }
      if double && atSplit { return false; }
      groups := groups + 2;
      double := double || atSplit;
    } else {
      groups, double, good := ParseIPv6Hextets(addr);
      if !good { return false; }
    }
    ok := !((!double && groups != 8) || (double && groups >= 8));
  }

  lemma NoQuad(t: Word)
    ensures t == [] ==> !QuadFrom(t, 4)
  {
  }
}
