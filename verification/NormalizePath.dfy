/** normalizePath on a build whose path separator is the slash (fasthttp/uri.go:687-800): each
    pass rewrites the path in place, in one go. */
module NormalizePaths {
  import opened Octets
  import opened Paths

  /** The first index from i on where p stands, or the length. */
  function Index(s: seq<octet>, p: seq<octet>, i: nat): (n: nat)
    requires i <= |s|
    ensures i <= n <= |s| && forall k :: i <= k < n ==> !Stands(s, p, k)
    decreases |s| - i
  {
    if i == |s| || Stands(s, p, i) then i else Index(s, p, i + 1)
  }

  predicate Stands(s: seq<octet>, p: seq<octet>, k: nat) { k + |p| <= |s| && s[k..k + |p|] == p }

  /** Before the first occurrence of its pattern a pass changes nothing. */
  lemma {:induction false} Untouched(s: seq<octet>, mode: Mode, r: nat)
    requires mode != Nothing && 1 <= r <= Index(s, Pattern(mode), 0) && s[0] == SLASH
    ensures Render(Run(s[1..r], mode)) == s[..r]
    decreases r
  {
    hide Feed, Render, Pattern, Index;
    if r == 1 {
      assert s[1..1] == [];
      RenderRoot(mode);
    } else {
      Untouched(s, mode, r - 1);
      var q := Run(s[1..r - 1], mode);
      RunTidy(s[1..r - 1], mode);
      assert s[..r] == s[..r - 1] + [s[r - 1]];
      assert s[1..r][..r - 2] == s[1..r - 1];
      PatternLong(mode);
      NotThere(s, Pattern(mode), r);
      FeedKeeps(q, s[r - 1], mode);
    }
  }

  lemma RenderRoot(mode: Mode)
    ensures Render(Run([], mode)) == [SLASH]
  {
  }

  lemma NotThere(s: seq<octet>, p: seq<octet>, r: nat)
    requires r <= Index(s, p, 0) && |p| > 0
    ensures !EndsWith(s[..r], p)
  {
    if |p| <= r {
      assert !Stands(s, p, r - |p|);
      assert s[..r][r - |p|..] == s[r - |p|..r];
    }
  }

  lemma RunNext(s: seq<octet>, r: nat, mode: Mode)
    requires 1 <= r < |s|
    ensures Run(s[1..r + 1], mode) == Feed(Run(s[1..r], mode), s[r], mode)
  {
    assert s[1..r + 1][..r - 1] == s[1..r];
  }

  /** Takes every pattern off the end of b[..w], which is a path that the pass has seen and one
      byte c behind it. */
  method Shrink(b: array<octet>, w0: nat, mode: Mode, ghost q: Path, ghost c: octet) returns (w: nat)
    requires mode == Empties || mode == Dots
    requires w0 <= b.Length && b[..w0] == Render(q) + [c] && Tidy(q) && Clean(q, mode) && Tidy(Feed(q, c, mode))
    requires Clean(Feed(q, c, mode), mode)
    ensures 0 < w <= w0 && b[..w] == Render(Feed(q, c, mode))
  {
    hide Feed, Render, Slashed, Pattern;
    w := w0;
    var p := Pattern(mode);
    ghost var t := Render(q) + [c];
    while EndsWith(b[..w], p)
      invariant w <= w0 && (b[..w] == t || b[..w] == Render(Feed(q, c, mode)))
      decreases w
    {
      CleanEnds(Feed(q, c, mode), mode);
      FeedDrops(q, c, mode);
      Shorter(q, mode);
      w := w - (|p| - 1);
      assert b[..w] == t[..w];
    }
    if b[..w] == t && !EndsWith(t, p) { FeedKeeps(q, c, mode); }
    RenderSome(Feed(q, c, mode));
  }

  lemma PatternLong(mode: Mode)
    ensures |Pattern(mode)| >= 2
  {
  }

  lemma Shorter(q: Path, mode: Mode)
    ensures |Pattern(mode)| >= 2
    ensures var t := Slashed(q.segs) + Pattern(mode);
      |Slashed(q.segs)| + 1 == |t| - (|Pattern(mode)| - 1) && t[..|Slashed(q.segs)| + 1] == Render(Path(q.segs, []))
  {
    hide Slashed;
  }

  lemma RenderSome(p: Path)
    ensures |Render(p)| > 0
  {
  }

  /** removeSegments on b[..len]. */
  method RemoveSegments(b: array<octet>, len: nat, mode: Mode) returns (w: nat)
    requires mode == Empties || mode == Dots
    requires 0 < len <= b.Length && b[0] == SLASH
    modifies b
    ensures 0 < w <= len && b[..w] == Render(Run(old(b[1..len]), mode))
  {
    hide Run, Render, Feed, Pattern, Index;
    ghost var s := b[..len];
    var n := Index(b[..len], Pattern(mode), 0);
    if n > 0 { Untouched(s, mode, n); }
    assert b[..n] == s[..n];
    assert s[1..len] == b[1..len] && s[..len] == s;
    if n == len { return len; }
    w := n;
    var r := n;
    while r < len
      invariant n <= r <= len && w <= r && (w == 0 <==> r == 0)
      invariant r > 0 ==> b[..w] == Render(Run(s[1..r], mode))
      invariant forall k :: r <= k < len ==> b[k] == s[k]
    {
      ghost var t := b[..w];
      b[w] := b[r];
      assert b[..w + 1] == t + [s[r]];
      if r == 0 {
        RenderRoot(mode);
        assert s[1..1] == [];
        PatternLong(mode);
        w := 1;
      } else {
        RunNext(s, r, mode);
        RunTidy(s[1..r], mode);
        RunTidy(s[1..r + 1], mode);
        w := Shrink(b, w + 1, mode, Run(s[1..r], mode), s[r]);
      }
      r := r + 1;
    }
  }

  /** The slash in front of the last segment. */
  lemma LastSlashIs(segs: seq<Seg>)
    requires forall s :: s in segs ==> SLASH !in s
    ensures LastIndexByte(Slashed(segs), SLASH) == if segs == [] then -1 else |Slashed(Front(segs))|
    ensures segs != [] ==>
      Slashed(segs)[..|Slashed(Front(segs))|] == Slashed(Front(segs)) && |Slashed(segs)| > |Slashed(Front(segs))|
  {
    if segs != [] {
      var t, f, s := Slashed(segs), Slashed(Front(segs)), segs[|segs| - 1];
      assert t == f + [SLASH] + s;
      assert s in segs;
      forall k | |f| < k < |t| ensures t[k] != SLASH { assert t[k] == s[k - |f| - 1]; }
      LastIs(t, |f|);
    }
  }

  lemma LastIs(s: seq<octet>, n: nat)
    requires n < |s| && s[n] == SLASH && forall k :: n < k < |s| ==> s[k] != SLASH
    ensures LastIndexByte(s, SLASH) == n
  {
  }

  /** Cuts the pattern off the end of b[..w0] with the segment in front of it. */
  method CutParent(b: array<octet>, w0: nat, p: seq<octet>, ghost segs: seq<Seg>) returns (w: nat)
    requires w0 <= b.Length && |p| >= 2 && b[..w0] == Slashed(segs) + p && forall s :: s in segs ==> SLASH !in s
    modifies b
    ensures 0 < w < w0 && b[..w] == Slashed(Front(segs)) + [SLASH]
    ensures forall k :: w0 <= k < b.Length ==> b[k] == old(b[k])
  {
    hide Slashed, LastIndexByte;
    ghost var t := b[..w0];
    assert b[..w0 - |p|] == t[..w0 - |p|] == Slashed(segs);
    LastSlashIs(segs);
    FrontNone();
    var k := LastIndexByte(b[..w0 - |p|], SLASH);
    w := if k < 0 then 0 else k;
    assert b[..w] == t[..w0 - |p|][..w] == Slashed(Front(segs));
    b[w] := SLASH;
    w := w + 1;
    assert b[..w] == Slashed(Front(segs)) + [SLASH];
  }

  /** Takes every pattern off the end of b[..w], as Shrink does, with the segment in front. */
  method ShrinkParents(b: array<octet>, w0: nat, ghost q: Path, ghost c: octet) returns (w: nat)
    requires w0 <= b.Length && b[..w0] == Render(q) + [c]
    requires Tidy(q) && Tidy(Feed(q, c, Parents)) && Clean(Feed(q, c, Parents), Parents)
    modifies b
    ensures 0 < w <= w0 && b[..w] == Render(Feed(q, c, Parents))
    ensures forall k :: w0 <= k < b.Length ==> b[k] == old(b[k])
  {
    hide Feed, Render, Slashed, Pattern, EndsWith, Front;
    w := w0;
    var p := Pattern(Parents);
    ghost var t := Render(q) + [c];
    PatternLong(Parents);
    CleanEnds(Feed(q, c, Parents), Parents);
    RenderDir(Front(q.segs));
    while EndsWith(b[..w], p)
      invariant w <= w0 && (b[..w] == t || b[..w] == Render(Feed(q, c, Parents)))
      invariant forall k :: w0 <= k < b.Length ==> b[k] == old(b[k])
      decreases w
    {
      FeedDrops(q, c, Parents);
      w := CutParent(b, w, p, q.segs);
    }
    if b[..w] == t && !EndsWith(t, p) { FeedKeeps(q, c, Parents); }
    RenderSome(Feed(q, c, Parents));
  }

  lemma FrontNone()
    ensures Slashed([]) == []
  {
  }

  lemma RenderDir(segs: seq<Seg>)
    ensures Render(Path(segs, [])) == Slashed(segs) + [SLASH]
  {
  }

  /** removeParentSegments on b[..len] with the slash as separator. */
  method RemoveParentSegments(b: array<octet>, len: nat) returns (w: nat)
    requires 0 < len <= b.Length && b[0] == SLASH
    modifies b
    ensures 0 < w <= len && b[..w] == Render(Run(old(b[1..len]), Parents))
  {
    hide Run, Render, Feed, Pattern, Index;
    ghost var s := b[..len];
    var n := Index(b[..len], Pattern(Parents), 0);
    if n > 0 { Untouched(s, Parents, n); }
    assert b[..n] == s[..n];
    assert s[1..len] == b[1..len] && s[..len] == s;
    if n == len { return len; }
    w := n;
    var r := n;
    while r < len
      invariant n <= r <= len && w <= r && (w == 0 <==> r == 0)
      invariant r > 0 ==> b[..w] == Render(Run(s[1..r], Parents))
      invariant forall k :: r <= k < len ==> b[k] == s[k]
    {
      ghost var t := b[..w];
      b[w] := b[r];
      assert b[..w + 1] == t + [s[r]];
      if r == 0 {
        RenderRoot(Parents);
        assert s[1..1] == [];
        w := 1;
      } else {
        RunNext(s, r, Parents);
        RunTidy(s[1..r], Parents);
        RunTidy(s[1..r + 1], Parents);
        w := ShrinkParents(b, w + 1, Run(s[1..r], Parents), s[r]);
      }
      r := r + 1;
    }
  }

  // ---- the whole

  lemma EndsBoth(s: seq<octet>, t: seq<octet>, c: octet)
    ensures EndsWith(s + [c], t + [c]) <==> EndsWith(s, t)
  {
    if |t| <= |s| {
      assert (s + [c])[|s| - |t|..] == s[|s| - |t|..] + [c];
      assert t == (t + [c])[..|t|] && s[|s| - |t|..] == (s[|s| - |t|..] + [c])[..|t|];
    }
  }

  /** A path ends in /. or /.. exactly when its last segment is that. */
  lemma DotEnds(p: Path, mode: Mode)
    requires Tidy(p)
    ensures EndsWith(Render(p), [SLASH] + Dropped(mode)) <==> p.last == Dropped(mode)
    ensures p.last == Dropped(mode) ==> Render(p) == Slashed(p.segs) + ([SLASH] + Dropped(mode))
  {
    PatternEnds(p, mode);
    EndsBoth(Render(p), [SLASH] + Dropped(mode), SLASH);
  }

  lemma {:induction false} NoDotSegs(segs: seq<Seg>, mode: Mode)
    requires DOT !in Slashed(segs) && (mode == Dots || mode == Parents)
    ensures PassSegs(segs, mode) == segs
  {
    if segs != [] {
      var front, s := segs[..|segs| - 1], segs[|segs| - 1];
      assert DOT !in Slashed(front) && DOT !in s;
      NoDotSegs(front, mode);
      assert segs == front + [s];
      assert [DOT][0] == DOT && [DOT, DOT][0] == DOT;
    }
  }

  lemma PassTidy(p: Path, mode: Mode)
    requires Tidy(p)
    ensures Tidy(Path(PassSegs(p.segs, mode), p.last))
    ensures Run(Render(p)[1..], mode) == Path(PassSegs(p.segs, mode), p.last)
  {
    RunRender(p.segs, p.last, mode);
    RunTidy(Render(p)[1..], mode);
  }

  /** A path without a dot needs only its slashes collapsed. */
  lemma NoDots(p: Path)
    requires DOT !in Render(Path(PassSegs(p.segs, Empties), p.last))
    ensures Resolve(p) == Path(PassSegs(p.segs, Empties), p.last)
  {
    var segs := PassSegs(p.segs, Empties);
    assert DOT !in Slashed(segs) && DOT !in p.last;
    NoDotSegs(segs, Dots);
    NoDotSegs(segs, Parents);
    PassesAreStack(p.segs);
    assert [DOT][0] == DOT && [DOT, DOT][0] == DOT;
  }

  function Tail(p: Path): Path {
    if p.last == [DOT] then Path(p.segs, []) else if p.last == [DOT, DOT] then Path(Front(p.segs), []) else p
  }

  /** A path that ends in /.. loses that and its last segment. */
  method DropParent(b: seq<octet>, ghost segs: seq<Seg>) returns (out: seq<octet>)
    requires b == Slashed(segs) + [SLASH, DOT, DOT] && forall s :: s in segs ==> SLASH !in s
    ensures out == Slashed(Front(segs)) + [SLASH]
  {
    hide Slashed, LastIndexByte;
    var n := |b| - 3;
    assert b[..n] == Slashed(segs);
    LastSlashIs(segs);
    FrontNone();
    var nn := LastIndexByte(b[..n], SLASH);
    if nn < 0 { return [SLASH]; }
    assert b[..nn + 1] == b[..n][..nn] + [SLASH];
    return b[..nn + 1];
  }

  lemma LastDots(p: Path)
    requires Tidy(p)
    ensures EndsWith(Render(p), [SLASH, DOT, DOT]) <==> p.last == [DOT, DOT]
    ensures p.last == [DOT, DOT] ==> Render(p) == Slashed(p.segs) + [SLASH, DOT, DOT]
    ensures EndsWith(Render(p), [SLASH, DOT]) <==> p.last == [DOT]
    ensures p.last == [DOT] ==> Render(p) == Slashed(p.segs) + [SLASH, DOT]
  {
    hide Slashed, Render, EndsWith;
    DotEnds(p, Parents);
    DotEnds(p, Dots);
    assert [SLASH] + Dropped(Parents) == [SLASH, DOT, DOT] && [SLASH] + Dropped(Dots) == [SLASH, DOT];
  }

  /** The end of the path: a last segment .. or . is resolved too. */
  method ResolveLast(b: seq<octet>, ghost p: Path) returns (out: seq<octet>)
    requires b == Render(p) && Tidy(p)
    ensures out == Render(Tail(p))
  {
    hide Slashed, Render, EndsWith;
    LastDots(p);
    RenderDir(p.segs);
    RenderDir(Front(p.segs));
    out := b;
    if EndsWith(b, [SLASH, DOT, DOT]) {
      out := DropParent(b, p.segs);
    } else if EndsWith(b, [SLASH, DOT]) {
      out := b[..|b| - 1];
    }
  }

  method NormalizePath(src: seq<octet>) returns (out: seq<octet>)
    ensures out == Normal(src)
  {
    hide Decode, Run, Render, Resolve, PassSegs;
    if |src| == 1 && src[0] == SLASH {
      OnlySlash();
      assert src == [SLASH];
      return [SLASH];
    }
    var dst := if src == [] || src[0] != SLASH then [SLASH] else [];
    dst := DecodeAppend(dst, src, false);
    assert dst == Rooted(src);
    var b := new octet[|dst|](i requires 0 <= i < |dst| => dst[i]);
    assert b[..] == dst && b[1..b.Length] == dst[1..];
    ghost var p := Split(dst);
    RunTidy(dst[1..], Nothing);
    SplitRenders(dst[1..]);
    assert Render(p) == dst;
    PassTidy(p, Empties);
    var w := RemoveSegments(b, b.Length, Empties);
    ghost var p1 := Path(PassSegs(p.segs, Empties), p.last);
    if DOT !in b[..w] {
      NoDots(p);
      return b[..w];
    }
    PassTidy(p1, Dots);
    FirstIsSlash(p1);
    assert b[..w][1..] == b[1..w];
    assert b[0] == b[..w][0];
    w := RemoveSegments(b, w, Dots);
    ghost var p2 := Path(PassSegs(p1.segs, Dots), p.last);
    PassTidy(p2, Parents);
    FirstIsSlash(p2);
    assert b[..w][1..] == b[1..w];
    assert b[0] == b[..w][0];
    w := RemoveParentSegments(b, w);
    ghost var p3 := Path(PassSegs(p2.segs, Parents), p.last);
    PassesAreStack(p.segs);
    ResolveIs(p);
    out := ResolveLast(b[..w], p3);
  }

  lemma ResolveIs(p: Path)
    ensures Resolve(p) == Tail(Path(Stack(p.segs), p.last))
  {
  }

  lemma OnlySlash()
    ensures Normal([SLASH]) == [SLASH]
  {
    assert [SLASH][1..] == [];
    assert Decode([SLASH], false) == [SLASH];
    assert Split([SLASH]) == Path([], []);
  }
}
