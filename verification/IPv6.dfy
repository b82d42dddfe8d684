/** The grammar IPv6address of section 3.2.2 of RFC 3986, and recognizers that follow it. */
module IPv6Grammar {
  import opened Common
  import opened Octets

  const COLON: octet := 58

  type Word = seq<octet>

  // ---- the grammar

  /** h16 = 1*4HEXDIG */
  predicate Group(g: Word) { 1 <= |g| <= 4 && forall i :: 0 <= i < |g| ==> IsHex(g[i]) }

  ghost predicate Groups(gs: seq<Word>) { forall i :: 0 <= i < |gs| ==> Group(gs[i]) }

  function Joined(ws: seq<Word>, sep: octet): Word {
    if ws == [] then [] else if |ws| == 1 then ws[0] else ws[0] + [sep] + Joined(ws[1..], sep)
  }

  predicate IsDigit(c: octet) { 48 <= c <= 57 }

  function Number(s: Word): int {
    if s == [] then 0
    else
      var last: int := s[|s| - 1];
      Number(s[..|s| - 1]) * 10 + last - 48
  }

  /** dec-octet: 0 to 255 without leading zeros */
  predicate DecOctet(s: Word) {
    1 <= |s| <= 3 && (forall i :: 0 <= i < |s| ==> IsDigit(s[i])) && Number(s) <= 255 && (|s| == 1 || s[0] != 48)
  }

  ghost predicate DecOctets(ds: seq<Word>) { forall i :: 0 <= i < |ds| ==> DecOctet(ds[i]) }

  /** IPv4address */
  ghost predicate Quad(s: Word) { exists ds :: DecOctets(ds) && |ds| == 4 && s == Joined(ds, DOT) }

  /** left, then possibly :: and right; the whole may end in an IPv4address. */
  datatype Addr = Addr(left: seq<Word>, gap: bool, right: seq<Word>, v4: Option<Word>)

  function Tail(v4: Option<Word>): seq<Word> { if v4.Some? then [v4.value] else [] }

  function Print(a: Addr): Word {
    if a.gap then Joined(a.left, COLON) + [COLON, COLON] + Joined(a.right + Tail(a.v4), COLON)
    else Joined(a.left + Tail(a.v4), COLON)
  }

  /** Sixteen-bit groups, the IPv4address counted as two. */
  function Weight(a: Addr): nat { |a.left| + |a.right| + if a.v4.Some? then 2 else 0 }

  /** All eight groups, or fewer around a :: that stands for at least one. */
  ghost predicate WellFormed(a: Addr) {
    && Groups(a.left) && Groups(a.right) && (a.v4.Some? ==> Quad(a.v4.value))
    && (if a.gap then Weight(a) <= 7 else a.right == [] && Weight(a) == 8)
  }

  ghost predicate IPv6Address(s: Word) { exists a :: WellFormed(a) && Print(a) == s }

  // ---- lists of groups

  /** How many bytes from the start on satisfy p. */
  function Prefix(s: Word, p: octet -> bool): (k: nat)
    ensures k <= |s| && (forall i :: 0 <= i < k ==> p(s[i])) && (k < |s| ==> !p(s[k]))
  {
    if s == [] || !p(s[0]) then 0 else Prefix(s[1..], p) + 1
  }

  lemma PrefixIs(s: Word, p: octet -> bool, k: nat)
    requires k <= |s| && (forall i :: 0 <= i < k ==> p(s[i])) && (k < |s| ==> !p(s[k]))
    ensures Prefix(s, p) == k
  {
  }

  /** The number of groups that t consists of. */
  function List(t: Word): (n: Option<nat>)
    decreases |t|
  {
    var k := Prefix(t, IsHex);
    if k < 1 || k > 4 then None
    else if k == |t| then Some(1)
    else if t[k] == COLON then More(List(t[k + 1..]))
    else None
  }

  function More(n: Option<nat>): Option<nat> { if n.Some? then Some(n.value + 1) else None }

  datatype Shape = Shape(groups: nat, double: bool)

  function MoreShape(s: Option<Shape>): Option<Shape> {
    if s.Some? then Some(s.value.(groups := s.value.groups + 1)) else None
  }

  predicate DoubleAt(t: Word, k: nat) { k + 1 < |t| && t[k] == COLON && t[k + 1] == COLON }

  /** What follows a ::, to the end. */
  function AfterDouble(t: Word): Option<Shape> {
    if t == [] then Some(Shape(0, true))
    else
      match List(t)
      case None => None
      case Some(n) => Some(Shape(n, true))
  }

  /** Groups with at most one :: behind the first of them. */
  function ListDouble(t: Word): Option<Shape>
    decreases |t|
  {
    var k := Prefix(t, IsHex);
    if k < 1 || k > 4 then None
    else if k == |t| then Some(Shape(1, false))
    else if DoubleAt(t, k) then MoreShape(AfterDouble(t[k + 2..]))
    else if t[k] == COLON then MoreShape(ListDouble(t[k + 1..]))
    else None
  }

  /** The shape of what parseIPv6Hextets takes. */
  function Hextets(s: Word): Option<Shape> {
    if s == [] then Some(Shape(0, false))
    else if DoubleAt(s, 0) then AfterDouble(s[2..])
    else ListDouble(s)
  }

  // ---- what they take is what the grammar makes

  lemma JoinedCons(w: Word, ws: seq<Word>, sep: octet)
    ensures Joined([w] + ws, sep) == if ws == [] then w else w + [sep] + Joined(ws, sep)
  {
    assert ([w] + ws)[1..] == ws;
  }

  /** The first group of a list, and what is behind it. */
  lemma ListSplits(t: Word) returns (k: nat)
    requires List(t).Some?
    ensures k <= |t| && Group(t[..k])
    ensures k == |t| ==> List(t) == Some(1)
    ensures k < |t| ==> t[k] == COLON && List(t[k + 1..]).Some? && List(t) == More(List(t[k + 1..]))
  {
    k := Prefix(t, IsHex);
    hide Prefix;
  }

  /** The groups that List counts. */
  lemma {:induction false} ListSound(t: Word) returns (gs: seq<Word>)
    requires List(t).Some?
    ensures Groups(gs) && gs != [] && Joined(gs, COLON) == t && List(t) == Some(|gs|)
    decreases |t|
  {
    hide List, Group;
    var k := ListSplits(t);
    if k == |t| {
      assert t[..k] == t;
      gs := [t];
    } else {
      var rest := ListSound(t[k + 1..]);
      gs := [t[..k]] + rest;
      JoinedCons(t[..k], rest, COLON);
      assert t == t[..k] + [COLON] + t[k + 1..];
    }
  }

  lemma GroupPrefix(g: Word, t: Word)
    requires Group(g) && (t == [] || t[0] == COLON)
    ensures Prefix(g + t, IsHex) == |g| && (g + t)[..|g|] == g && (g + t)[|g|..] == t
  {
    PrefixIs(g + t, IsHex, |g|);
  }

  lemma ListCons(g: Word, t: Word)
    requires Group(g)
    ensures List(g) == Some(1) && List(g + [COLON] + t) == More(List(t))
  {
    hide Prefix;
    GroupPrefix(g, []);
    assert g + [] == g;
    GroupPrefix(g, [COLON] + t);
    assert g + [COLON] + t == g + ([COLON] + t);
    assert (g + ([COLON] + t))[|g| + 1..] == t;
  }

  lemma {:induction false} ListComplete(gs: seq<Word>)
    requires Groups(gs) && gs != []
    ensures List(Joined(gs, COLON)) == Some(|gs|)
    decreases |gs|
  {
    hide List;
    ListCons(gs[0], Joined(gs[1..], COLON));
    if |gs| > 1 { ListComplete(gs[1..]); }
  }

  lemma ListDoubleCons(g: Word, t: Word)
    requires Group(g)
    ensures ListDouble(g) == Some(Shape(1, false))
    ensures (t == [] || t[0] != COLON) ==> ListDouble(g + [COLON] + t) == MoreShape(ListDouble(t))
    ensures ListDouble(g + [COLON, COLON] + t) == MoreShape(AfterDouble(t))
  {
    hide Prefix, AfterDouble;
    GroupPrefix(g, []);
    assert g + [] == g;
    GroupPrefix(g, [COLON] + t);
    assert g + [COLON] + t == g + ([COLON] + t);
    assert (g + ([COLON] + t))[|g| + 1..] == t;
    GroupPrefix(g, [COLON, COLON] + t);
    assert g + [COLON, COLON] + t == g + ([COLON, COLON] + t);
    assert (g + ([COLON, COLON] + t))[|g| + 2..] == t;
  }

  lemma AfterDoubleComplete(gs: seq<Word>)
    requires Groups(gs)
    ensures AfterDouble(Joined(gs, COLON)) == Some(Shape(|gs|, true))
  {
    hide List;
    if gs != [] {
      ListComplete(gs);
      JoinedStart(gs);
    }
  }

  /** A list of groups starts with a hex digit. */
  lemma JoinedStart(gs: seq<Word>)
    requires Groups(gs) && gs != []
    ensures Joined(gs, COLON) != [] && IsHex(Joined(gs, COLON)[0])
  {
    assert Joined(gs, COLON)[0] == gs[0][0];
  }

  lemma ColonNoHex()
    ensures !IsHex(COLON) && !IsHex(DOT)
  {
  }

  lemma {:induction false} ListDoubleComplete(left: seq<Word>, gap: bool, right: seq<Word>)
    requires Groups(left) && left != [] && Groups(right) && (!gap ==> right == [])
    ensures ListDouble(Printed(left, gap, right)) == Some(Shape(|left| + |right|, gap))
    decreases |left|
  {
    hide ListDouble, AfterDouble;
    ColonNoHex();
    if |left| == 1 {
      ListDoubleCons(left[0], Joined(right, COLON));
      AfterDoubleComplete(right);
    } else {
      var rest := Printed(left[1..], gap, right);
      ListDoubleComplete(left[1..], gap, right);
      JoinedStart(left[1..]);
      ListDoubleCons(left[0], rest);
      assert Printed(left, gap, right) == left[0] + [COLON] + rest;
    }
  }

  function Printed(left: seq<Word>, gap: bool, right: seq<Word>): Word {
    if gap then Joined(left, COLON) + [COLON, COLON] + Joined(right, COLON) else Joined(left, COLON)
  }

  lemma HextetsComplete(left: seq<Word>, gap: bool, right: seq<Word>)
    requires Groups(left) && Groups(right) && (!gap ==> right == [])
    ensures Hextets(Printed(left, gap, right)) == Some(Shape(|left| + |right|, gap))
  {
    hide ListDouble, AfterDouble;
    ColonNoHex();
    var s := Printed(left, gap, right);
    if left != [] {
      ListDoubleComplete(left, gap, right);
      JoinedStart(left);
      assert s[0] == Joined(left, COLON)[0];
    } else if gap {
      AfterDoubleComplete(right);
      assert s == [COLON, COLON] + Joined(right, COLON);
      assert s[2..] == Joined(right, COLON);
    }
  }

  lemma ListDoubleSplits(t: Word) returns (k: nat)
    requires ListDouble(t).Some?
    ensures k <= |t| && Group(t[..k])
    ensures k == |t| ==> ListDouble(t) == Some(Shape(1, false))
    ensures DoubleAt(t, k) ==> AfterDouble(t[k + 2..]).Some? && ListDouble(t) == MoreShape(AfterDouble(t[k + 2..]))
    ensures k < |t| && !DoubleAt(t, k) ==>
      t[k] == COLON && ListDouble(t[k + 1..]).Some? && ListDouble(t) == MoreShape(ListDouble(t[k + 1..]))
  {
    k := Prefix(t, IsHex);
    hide Prefix, AfterDouble;
  }

  lemma AfterDoubleSound(t: Word) returns (gs: seq<Word>)
    requires AfterDouble(t).Some?
    ensures Groups(gs) && Joined(gs, COLON) == t && AfterDouble(t) == Some(Shape(|gs|, true))
  {
    hide List;
    gs := [];
    if t != [] { gs := ListSound(t); }
  }

  lemma {:induction false} ListDoubleSound(t: Word) returns (left: seq<Word>, right: seq<Word>)
    requires ListDouble(t).Some?
    ensures Groups(left) && left != [] && Groups(right)
    ensures var sh := ListDouble(t).value;
      (!sh.double ==> right == []) && t == Printed(left, sh.double, right) && sh.groups == |left| + |right|
    decreases |t|
  {
    hide ListDouble, AfterDouble, Group;
    var k := ListDoubleSplits(t);
    var g := t[..k];
    if k == |t| {
      assert g == t;
      left, right := [t], [];
    } else if DoubleAt(t, k) {
      left := [g];
      right := AfterDoubleSound(t[k + 2..]);
      assert t == g + [COLON, COLON] + t[k + 2..];
    } else {
      left, right := ListDoubleSound(t[k + 1..]);
      JoinedCons(g, left, COLON);
      assert t == g + [COLON] + t[k + 1..];
      left := [g] + left;
    }
  }

  lemma HextetsSound(s: Word) returns (left: seq<Word>, right: seq<Word>)
    requires Hextets(s).Some?
    ensures Groups(left) && Groups(right)
    ensures var sh := Hextets(s).value;
      (!sh.double ==> right == []) && s == Printed(left, sh.double, right) && sh.groups == |left| + |right|
  {
    hide List, ListDouble;
    left, right := [], [];
    if s == [] {
    } else if DoubleAt(s, 0) {
      if s[2..] != [] { right := ListSound(s[2..]); }
      assert s == [COLON, COLON] + s[2..];
    } else {
      left, right := ListDoubleSound(s);
    }
  }

  // ---- dotted quads

  /** t is so many dec-octets with dots between them. */
  predicate QuadFrom(t: Word, parts: nat)
    requires parts >= 1
    decreases parts
  {
    var k := Prefix(t, IsDigit);
    && DecOctet(t[..k])
    && (if parts == 1 then k == |t| else k < |t| && t[k] == DOT && QuadFrom(t[k + 1..], parts - 1))
  }

  lemma QuadSplits(t: Word, parts: nat) returns (k: nat)
    requires parts >= 1 && QuadFrom(t, parts)
    ensures k <= |t| && DecOctet(t[..k])
    ensures parts == 1 ==> k == |t|
    ensures parts > 1 ==> k < |t| && t[k] == DOT && QuadFrom(t[k + 1..], parts - 1)
  {
    k := Prefix(t, IsDigit);
    hide Prefix, DecOctet;
  }

  lemma {:induction false} QuadFromSound(t: Word, parts: nat) returns (ds: seq<Word>)
    requires parts >= 1 && QuadFrom(t, parts)
    ensures |ds| == parts && DecOctets(ds) && Joined(ds, DOT) == t
    decreases parts
  {
    hide DecOctet, QuadFrom;
    var k := QuadSplits(t, parts);
    if parts == 1 {
      ds := [t];
      assert t[..k] == t;
    } else {
      var rest := QuadFromSound(t[k + 1..], parts - 1);
      JoinedCons(t[..k], rest, DOT);
      assert t == t[..k] + [DOT] + t[k + 1..];
      ds := [t[..k]] + rest;
    }
  }

  lemma DecPrefix(d: Word, t: Word)
    requires DecOctet(d) && (t == [] || t[0] == DOT)
    ensures Prefix(d + t, IsDigit) == |d| && (d + t)[..|d|] == d && (d + t)[|d|..] == t
  {
    hide Number;
    PrefixIs(d + t, IsDigit, |d|);
  }

  lemma QuadCons(d: Word, t: Word, parts: nat)
    requires DecOctet(d)
    ensures QuadFrom(d, 1)
    ensures parts > 1 && QuadFrom(t, parts - 1) ==> QuadFrom(d + [DOT] + t, parts)
  {
    hide DecOctet, Prefix;
    DecPrefix(d, []);
    assert d + [] == d;
    DecPrefix(d, [DOT] + t);
    assert d + [DOT] + t == d + ([DOT] + t);
    assert (d + ([DOT] + t))[|d| + 1..] == t;
  }

  lemma {:induction false} QuadFromComplete(ds: seq<Word>)
    requires DecOctets(ds) && ds != []
    ensures QuadFrom(Joined(ds, DOT), |ds|)
    decreases |ds|
  {
    hide DecOctet, QuadFrom;
    QuadCons(ds[0], Joined(ds[1..], DOT), |ds|);
    if |ds| > 1 { QuadFromComplete(ds[1..]); }
  }

  lemma QuadIs(s: Word)
    ensures Quad(s) <==> QuadFrom(s, 4)
  {
    hide DecOctets, Joined, QuadFrom;
    if QuadFrom(s, 4) { var ds := QuadFromSound(s, 4); }
    if Quad(s) {
      var ds :| DecOctets(ds) && |ds| == 4 && s == Joined(ds, DOT);
      QuadFromComplete(ds);
    }
  }

  // ---- the whole address

  predicate Fits(groups: nat, double: bool) { if double then groups < 8 else groups == 8 }

  /** An address that ends in a dotted quad, whose last colon is at i. */
  predicate AcceptsMixed(s: Word, i: nat)
    requires i < |s|
  {
    var double := i > 0 && s[i - 1] == COLON;
    var head := if double then s[..i - 1] else s[..i];
    && QuadFrom(s[i + 1..], 4)
    && Hextets(head).Some?
    && !(Hextets(head).value.double && double)
    && Fits(Hextets(head).value.groups + 2, Hextets(head).value.double || double)
  }

  /** What validateIPv6Literal takes between the brackets and in front of a zone. */
  predicate Accepts(s: Word) {
    COLON in s &&
    if DOT in s then AcceptsMixed(s, LastIndexByte(s, COLON))
    else Hextets(s).Some? && Fits(Hextets(s).value.groups, Hextets(s).value.double)
  }

  lemma {:induction false} JoinedSnoc(ws: seq<Word>, w: Word, sep: octet)
    ensures Joined(ws + [w], sep) == if ws == [] then w else Joined(ws, sep) + [sep] + w
  {
    if ws != [] {
      assert (ws + [w])[1..] == ws[1..] + [w];
      JoinedSnoc(ws[1..], w, sep);
    }
  }

  /** Groups hold hex digits; with colons between them that is all there is. */
  lemma {:induction false} JoinedBytes(gs: seq<Word>)
    requires Groups(gs)
    ensures DOT !in Joined(gs, COLON)
    ensures gs != [] ==> Joined(gs, COLON) != [] && Joined(gs, COLON)[|Joined(gs, COLON)| - 1] != COLON
    ensures |gs| > 1 ==> COLON in Joined(gs, COLON)
  {
    ColonNoHex();
    if |gs| == 1 {
      var g := gs[0];
      assert forall i :: 0 <= i < |g| ==> IsHex(g[i]);
    } else if |gs| > 1 {
      JoinedBytes(gs[1..]);
      var g, r := gs[0], Joined(gs[1..], COLON);
      assert forall i :: 0 <= i < |g| ==> IsHex(g[i]);
      assert Joined(gs, COLON) == g + [COLON] + r;
    }
  }

  lemma {:induction false} DecJoinedBytes(ds: seq<Word>)
    requires DecOctets(ds)
    ensures COLON !in Joined(ds, DOT) && (|ds| > 1 ==> DOT in Joined(ds, DOT))
    decreases |ds|
  {
    hide DecOctet;
    if ds != [] {
      DecBytes(ds[0]);
      DecJoinedBytes(ds[1..]);
    }
  }

  lemma QuadBytes(q: Word)
    requires Quad(q)
    ensures DOT in q && COLON !in q && q != []
  {
    var ds :| DecOctets(ds) && |ds| == 4 && q == Joined(ds, DOT);
    hide DecOctets, Joined;
    DecJoinedBytes(ds);
  }

  lemma DecBytes(d: Word)
    requires DecOctet(d)
    ensures COLON !in d
  {
    assert forall i :: 0 <= i < |d| ==> IsDigit(d[i]);
  }

  lemma LastColonIs(pre: Word, q: Word)
    requires COLON !in q
    ensures LastIndexByte(pre + [COLON] + q, COLON) == |pre|
  {
    hide LastIndexByte;
    var s := pre + [COLON] + q;
    assert s[|pre|] == COLON;
    forall k | |pre| < k < |s| ensures s[k] != COLON { assert s[k] == q[k - |pre| - 1]; }
  }

  lemma SoundPlain(s: Word)
    requires DOT !in s && Accepts(s)
    ensures IPv6Address(s)
  {
    hide Hextets;
    var left, right := HextetsSound(s);
    var a := Addr(left, Hextets(s).value.double, right, None);
    assert right + [] == right && left + [] == left;
    assert WellFormed(a) && Print(a) == s;
  }

  lemma SoundMixed(s: Word)
    requires COLON in s && DOT in s && AcceptsMixed(s, LastIndexByte(s, COLON))
    ensures IPv6Address(s)
  {
    hide Hextets, QuadFrom, LastIndexByte;
    var i := LastIndexByte(s, COLON);
    var q := s[i + 1..];
    QuadIs(q);
    var double := i > 0 && s[i - 1] == COLON;
    var head := if double then s[..i - 1] else s[..i];
    var left, right := HextetsSound(head);
    var a := Addr(left, Hextets(head).value.double || double, right, Some(q));
    MixedPrints(s, i, left, Hextets(head).value.double, right);
    assert WellFormed(a) && Print(a) == s;
  }

  lemma DoubleEnds(left: seq<Word>)
    ensures var h := Printed(left, true, []); |h| >= 2 && h[|h| - 1] == COLON
  {
  }

  /** Putting the quad behind the parsed head gives the address back. */
  lemma MixedPrints(s: Word, i: nat, left: seq<Word>, gap: bool, right: seq<Word>)
    requires i < |s| && s[i] == COLON && Groups(left) && Groups(right) && (!gap ==> right == [])
    requires var double := i > 0 && s[i - 1] == COLON;
      && !(gap && double) && (!gap && !double ==> left != [])
      && (if double then s[..i - 1] else s[..i]) == Printed(left, gap, right)
    ensures Print(Addr(left, gap || (i > 0 && s[i - 1] == COLON), right, Some(s[i + 1..]))) == s
  {
    hide Print, Joined;
    var q, h := s[i + 1..], Printed(left, gap, right);
    if i > 0 && s[i - 1] == COLON {
      PrintsDouble(left, q);
      assert s == s[..i - 1] + [COLON, COLON] + q;
    } else {
      assert s == h + [COLON] + q;
      DoubleEnds(left);
      assert h != [] ==> |h| == i && h[|h| - 1] == s[i - 1];
      PrintsBehind(left, gap, right, q);
    }
  }

  lemma PrintsDouble(left: seq<Word>, q: Word)
    ensures Print(Addr(left, true, [], Some(q))) == Joined(left, COLON) + [COLON, COLON] + q
  {
    JoinedSnoc([], q, COLON);
  }

  lemma PrintsBehind(left: seq<Word>, gap: bool, right: seq<Word>, q: Word)
    requires if gap then right != [] else right == [] && left != []
    ensures Print(Addr(left, gap, right, Some(q))) == Printed(left, gap, right) + [COLON] + q
  {
    hide Joined;
    JoinedSnoc(left, q, COLON);
    JoinedSnoc(right, q, COLON);
  }

  lemma CompletePlain(a: Addr)
    requires WellFormed(a) && a.v4 == None
    ensures Accepts(Print(a))
  {
    hide Hextets;
    assert a.right + [] == a.right && a.left + [] == a.left;
    HextetsComplete(a.left, a.gap, a.right);
    JoinedBytes(a.left);
    JoinedBytes(a.right);
    assert Print(a) == Printed(a.left, a.gap, a.right);
    if a.gap { assert Print(a)[|Joined(a.left, COLON)|] == COLON; }
  }

  lemma BehindGroup(a: Addr)
    requires WellFormed(a) && a.v4.Some? && !(a.gap && a.right == [])
    ensures var pre := Printed(a.left, a.gap, a.right);
      Print(a) == pre + [COLON] + a.v4.value && pre != [] && pre[|pre| - 1] != COLON
  {
    hide Joined, Quad;
    JoinedBytes(a.left);
    JoinedBytes(a.right);
    JoinedSnoc(a.right, a.v4.value, COLON);
    JoinedSnoc(a.left, a.v4.value, COLON);
  }

  /** The quad is behind a list of groups. */
  lemma CompleteBehindGroup(a: Addr)
    requires WellFormed(a) && a.v4.Some? && !(a.gap && a.right == [])
    ensures Accepts(Print(a))
  {
    hide Hextets, QuadFrom, Quad, LastIndexByte, Print, Printed;
    var q, pre := a.v4.value, Printed(a.left, a.gap, a.right);
    BehindGroup(a);
    QuadBytes(q);
    QuadIs(q);
    LastColonIs(pre, q);
    HextetsComplete(a.left, a.gap, a.right);
    SplitAt(pre, q);
  }

  /** The quad is right behind the double colon. */
  lemma CompleteBehindDouble(a: Addr)
    requires WellFormed(a) && a.v4.Some? && a.gap && a.right == []
    ensures Accepts(Print(a))
  {
    hide Hextets, QuadFrom, Quad, LastIndexByte, Joined;
    var q, l := a.v4.value, Joined(a.left, COLON);
    var pre := l + [COLON];
    QuadBytes(q);
    QuadIs(q);
    JoinedSnoc([], q, COLON);
    assert a.right + [q] == [] + [q];
    assert Print(a) == pre + [COLON] + q;
    LastColonIs(pre, q);
    HextetsComplete(a.left, false, []);
    SplitAt(pre, q);
    assert Print(a)[..|pre| - 1] == l && Print(a)[|pre| - 1] == COLON;
  }

  lemma SplitAt(pre: Word, q: Word)
    requires DOT in q
    ensures var s := pre + [COLON] + q; s[..|pre|] == pre && s[|pre| + 1..] == q && COLON in s && DOT in s
  {
    var s := pre + [COLON] + q;
    assert s[|pre|] == COLON;
    var k :| 0 <= k < |q| && q[k] == DOT;
    assert s[|pre| + 1 + k] == DOT;
  }

  /** The recognizer takes exactly the addresses of the grammar. */
  lemma AcceptsIsGrammar(s: Word)
    ensures Accepts(s) <==> IPv6Address(s)
  {
    if Accepts(s) {
      if DOT in s { SoundMixed(s); } else { SoundPlain(s); }
    }
    if IPv6Address(s) {
      var a :| WellFormed(a) && Print(a) == s;
      if a.v4.None? {
        CompletePlain(a);
      } else if a.gap && a.right == [] {
        CompleteBehindDouble(a);
      } else {
        CompleteBehindGroup(a);
      }
    }
  }
}
