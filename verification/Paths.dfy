/** What normalizing a path means: dot segments are removed with a stack, section 5.2.4 of
    RFC 3986, after decoding and collapsing slashes. */
module Paths {
  import opened Octets

  type Seg = seq<octet>

  /** /s1/.../sn/last */
  datatype Path = Path(segs: seq<Seg>, last: Seg)

  function Slashed(segs: seq<Seg>): seq<octet> {
    if segs == [] then [] else Slashed(segs[..|segs| - 1]) + [SLASH] + segs[|segs| - 1]
  }

  function Render(p: Path): seq<octet> { Slashed(p.segs) + [SLASH] + p.last }

  function Front(segs: seq<Seg>): seq<Seg> { if segs == [] then [] else segs[..|segs| - 1] }

  /** Segments hold no slash. */
  ghost predicate Tidy(p: Path) { SLASH !in p.last && forall s :: s in p.segs ==> SLASH !in s }

  // ---- one pass over the bytes

  /** What a pass takes out: nothing, empty segments, "." or "..", the last with its parent. */
  datatype Mode = Nothing | Empties | Dots | Parents

  function Dropped(mode: Mode): Seg {
    match mode
    case Dots => [DOT]
    case Parents => [DOT, DOT]
    case _ => []
  }

  predicate Drops(s: Seg, mode: Mode) { mode != Nothing && s == Dropped(mode) }

  /** What a pass looks for: the dropped segment between slashes. */
  function Pattern(mode: Mode): seq<octet> { [SLASH] + Dropped(mode) + [SLASH] }

  function Push(segs: seq<Seg>, s: Seg, mode: Mode): seq<Seg> {
    if !Drops(s, mode) then segs + [s] else if mode == Parents then Front(segs) else segs
  }

  function Feed(p: Path, c: octet, mode: Mode): Path {
    if c == SLASH then Path(Push(p.segs, p.last, mode), []) else p.(last := p.last + [c])
  }

  /** The path behind the first slash, byte by byte. */
  function Run(s: seq<octet>, mode: Mode): Path {
    if s == [] then Path([], []) else Feed(Run(s[..|s| - 1], mode), s[|s| - 1], mode)
  }

  predicate EndsWith(s: seq<octet>, t: seq<octet>) { |t| <= |s| && s[|s| - |t|..] == t }

  ghost predicate Clean(p: Path, mode: Mode) { forall s :: s in p.segs ==> !Drops(s, mode) }

  lemma {:induction false} RunTidy(s: seq<octet>, mode: Mode)
    ensures Tidy(Run(s, mode)) && Clean(Run(s, mode), mode)
  {
    if s != [] { RunTidy(s[..|s| - 1], mode); }
  }

  lemma NoSlashDropped(mode: Mode)
    ensures SLASH !in Dropped(mode)
  {
  }

  /** The byte at the end of a suffix, and those inside it. */
  lemma SuffixAt(s: seq<octet>, t: seq<octet>, k: nat)
    requires EndsWith(s, t) && k < |t|
    ensures s[|s| - |t| + k] == t[k]
  {
    assert s[|s| - |t|..][k] == s[|s| - |t| + k];
  }

  lemma SameSegment(a: seq<octet>, l: Seg, d: Seg)
    requires SLASH !in l && SLASH !in d && EndsWith(a + ([SLASH] + l + [SLASH]), [SLASH] + d + [SLASH])
    ensures l == d
  {
    var t, pat := a + ([SLASH] + l + [SLASH]), [SLASH] + d + [SLASH];
    var at, off := |a|, |t| - |pat|;
    assert t[at] == SLASH;
    assert forall k :: at < k < |t| - 1 ==> t[k] == l[k - at - 1];
    SuffixAt(t, pat, 0);
    forall k | off < k < |t| - 1 ensures t[k] != SLASH {
      SuffixAt(t, pat, k - off);
      assert pat[k - off] == d[k - off - 1];
    }
    assert at == off;
    assert t[at..] == [SLASH] + l + [SLASH];
    assert ([SLASH] + l + [SLASH])[1..1 + |l|] == l && pat[1..1 + |d|] == d;
  }

  /** A slash behind the path completes the pattern exactly when the last segment is the one to
      be dropped. */
  lemma PatternEnds(p: Path, mode: Mode)
    requires Tidy(p)
    ensures EndsWith(Render(p) + [SLASH], Pattern(mode)) <==> p.last == Dropped(mode)
    ensures p.last == Dropped(mode) ==> Render(p) + [SLASH] == Slashed(p.segs) + Pattern(mode)
  {
    hide Slashed;
    var t := Render(p) + [SLASH];
    NoSlashDropped(mode);
    assert t == Slashed(p.segs) + ([SLASH] + p.last + [SLASH]);
    if EndsWith(t, Pattern(mode)) { SameSegment(Slashed(p.segs), p.last, Dropped(mode)); }
  }

  /** A byte that does not complete the pattern is kept. */
  lemma FeedKeeps(p: Path, c: octet, mode: Mode)
    requires Tidy(p) && mode != Nothing && !EndsWith(Render(p) + [c], Pattern(mode))
    ensures Render(Feed(p, c, mode)) == Render(p) + [c]
  {
    if c == SLASH {
      PatternEnds(p, mode);
      assert (p.segs + [p.last])[..|p.segs|] == p.segs;
    }
  }

  lemma FeedSplits(p: Path, c: octet)
    ensures Render(Feed(p, c, Nothing)) == Render(p) + [c]
  {
    if c == SLASH { assert (p.segs + [p.last])[..|p.segs|] == p.segs; }
  }

  /** A byte that completes the pattern makes the pass drop a segment. */
  lemma FeedDrops(p: Path, c: octet, mode: Mode)
    requires Tidy(p) && mode != Nothing && EndsWith(Render(p) + [c], Pattern(mode))
    ensures c == SLASH && Render(p) + [c] == Slashed(p.segs) + Pattern(mode)
    ensures Feed(p, c, mode) == Path(if mode == Parents then Front(p.segs) else p.segs, [])
  {
    var t, pat := Render(p) + [c], Pattern(mode);
    SuffixAt(t, pat, |pat| - 1);
    PatternEnds(p, mode);
  }

  /** What is left after a drop does not hold the pattern at its end. */
  lemma CleanEnds(p: Path, mode: Mode)
    requires Tidy(p) && Clean(p, mode) && mode != Nothing
    ensures !EndsWith(Render(p), Pattern(mode))
  {
    var t, pat := Render(p), Pattern(mode);
    if EndsWith(t, pat) { SuffixAt(t, pat, |pat| - 1); }
    if p.last != [] {
      assert t[|t| - 1] == p.last[|p.last| - 1];
    } else if p.segs != [] {
      var q := Path(Front(p.segs), p.segs[|p.segs| - 1]);
      FrontIn(p.segs);
      assert q.last in p.segs;
      assert Render(q) + [SLASH] == Render(p);
      PatternEnds(q, mode);
    } else {
      assert |t| == 1;
    }
  }

  // ---- passes on segments

  function PassSegs(segs: seq<Seg>, mode: Mode): seq<Seg> {
    if segs == [] then [] else Push(PassSegs(segs[..|segs| - 1], mode), segs[|segs| - 1], mode)
  }

  lemma {:induction false} RunWord(s: seq<octet>, w: Seg, mode: Mode)
    requires SLASH !in w
    ensures Run(s + w, mode) == Run(s, mode).(last := Run(s, mode).last + w)
  {
    if w == [] {
      assert s + w == s;
    } else {
      var front := w[..|w| - 1];
      assert (s + w)[..|s + w| - 1] == s + front && (s + w)[|s + w| - 1] == w[|w| - 1];
      RunWord(s, front, mode);
      assert front + [w[|w| - 1]] == w;
    }
  }

  lemma RunSlash(s: seq<octet>, mode: Mode)
    ensures Run(s + [SLASH], mode) == Feed(Run(s, mode), SLASH, mode)
  {
    assert (s + [SLASH])[..|s|] == s;
  }

  /** Running over the bytes of a path passes over its segments. */
  lemma {:induction false} RunRender(segs: seq<Seg>, last: Seg, mode: Mode)
    requires Tidy(Path(segs, last))
    ensures Run(Render(Path(segs, last))[1..], mode) == Path(PassSegs(segs, mode), last)
    decreases |segs|
  {
    hide Feed, Push;
    if segs == [] {
      assert Render(Path(segs, last))[1..] == [] + last;
      RunWord([], last, mode);
    } else {
      var front, s := segs[..|segs| - 1], segs[|segs| - 1];
      var t := Render(Path(front, s))[1..];
      assert Render(Path(segs, last))[1..] == t + [SLASH] + last;
      RunRender(front, s, mode);
      RunSlash(t, mode);
      RunWord(t + [SLASH], last, mode);
      SlashPushes(Path(PassSegs(front, mode), s), mode);
    }
  }

  lemma SlashPushes(p: Path, mode: Mode)
    ensures Feed(p, SLASH, mode) == Path(Push(p.segs, p.last, mode), [])
  {
  }

  /** Splitting at slashes. */
  function Split(b: seq<octet>): Path
    requires b != []
  {
    Run(b[1..], Nothing)
  }

  lemma {:induction false} SplitRenders(s: seq<octet>)
    ensures Render(Run(s, Nothing)) == [SLASH] + s
  {
    if s == [] {
      assert Render(Run(s, Nothing)) == [SLASH];
    } else {
      SplitRenders(s[..|s| - 1]);
      FeedSplits(Run(s[..|s| - 1], Nothing), s[|s| - 1]);
    }
  }

  // ---- the reference

  function Stack(segs: seq<Seg>): seq<Seg> {
    if segs == [] then []
    else
      StackPush(Stack(segs[..|segs| - 1]), segs[|segs| - 1])
  }

  function StackPush(st: seq<Seg>, s: Seg): seq<Seg> {
    if s == [] || s == [DOT] then st else if s == [DOT, DOT] then Front(st) else st + [s]
  }

  /** Dot segments removed; a dot segment at the end leaves its slash. */
  function Resolve(p: Path): Path {
    var st := Stack(p.segs);
    if p.last == [DOT] then Path(st, []) else if p.last == [DOT, DOT] then Path(Front(st), []) else Path(st, p.last)
  }

  /** The decoded path with a slash in front. */
  function Rooted(src: seq<octet>): (b: seq<octet>)
    ensures b != [] && b[0] == SLASH
  {
    if src == [] || src[0] != SLASH then [SLASH] + Decode(src, false) else Decode(src, false)
  }

  function Normal(src: seq<octet>): seq<octet> { Render(Resolve(Split(Rooted(src)))) }

  lemma PassSnoc(segs: seq<Seg>, s: Seg, mode: Mode)
    ensures PassSegs(segs + [s], mode) == Push(PassSegs(segs, mode), s, mode)
  {
    assert (segs + [s])[..|segs|] == segs;
  }

  /** A segment that goes through the three passes. */
  lemma PushThree(front: seq<Seg>, s: Seg)
    ensures var a := PassSegs(front, Empties);
      PassSegs(PassSegs(Push(a, s, Empties), Dots), Parents) == StackPush(PassSegs(PassSegs(a, Dots), Parents), s)
  {
    hide PassSegs;
    var a := PassSegs(front, Empties);
    PassSnoc(a, s, Dots);
    PassSnoc(PassSegs(a, Dots), s, Parents);
  }

  /** The three passes together are the stack. */
  lemma {:induction false} PassesAreStack(segs: seq<Seg>)
    ensures PassSegs(PassSegs(PassSegs(segs, Empties), Dots), Parents) == Stack(segs)
  {
    if segs == [] {
      assert PassSegs([], Dots) == [] && PassSegs([], Parents) == [];
    } else {
      hide Push, StackPush;
      var front, s := segs[..|segs| - 1], segs[|segs| - 1];
      PassesAreStack(front);
      PushThree(front, s);
    }
  }

  predicate Ordinary(s: Seg) { s != [] && s != [DOT] && s != [DOT, DOT] }

  /** A path that normalizing leaves alone. */
  ghost predicate Normalized(p: Path) {
    Tidy(p) && (forall s :: s in p.segs ==> Ordinary(s)) && p.last != [DOT] && p.last != [DOT, DOT]
  }

  lemma {:induction false} StackOrdinary(segs: seq<Seg>)
    ensures forall s :: s in Stack(segs) ==> s in segs && Ordinary(s)
  {
    if segs != [] {
      var front, last := segs[..|segs| - 1], segs[|segs| - 1];
      StackOrdinary(front);
      FrontIn(Stack(front));
      assert segs == front + [last];
      forall s | s in Stack(segs) ensures s in segs && Ordinary(s) {
        assert s in Stack(front) || s == last;
      }
    }
  }

  lemma FrontIn(segs: seq<Seg>)
    ensures forall s :: s in Front(segs) ==> s in segs
  {
  }

  lemma {:induction false} StackFixed(segs: seq<Seg>)
    requires forall s :: s in segs ==> Ordinary(s)
    ensures Stack(segs) == segs
  {
    if segs != [] {
      StackFixed(segs[..|segs| - 1]);
      assert segs[|segs| - 1] in segs;
      assert segs == segs[..|segs| - 1] + [segs[|segs| - 1]];
    }
  }

  /** The result starts with a slash, has no empty inner segment and no dot segment. */
  lemma NormalForm(src: seq<octet>)
    ensures Normal(src) != [] && Normal(src)[0] == SLASH && Normalized(Split(Normal(src)))
    ensures Render(Split(Normal(src))) == Normal(src)
  {
    var p := Split(Rooted(src));
    RunTidy(Rooted(src)[1..], Nothing);
    StackOrdinary(p.segs);
    var q := Resolve(p);
    assert Normalized(q);
    FirstIsSlash(q);
    SplitRender(q);
  }

  lemma {:induction false} FirstIsSlash(p: Path)
    ensures Render(p) != [] && Render(p)[0] == SLASH
    decreases |p.segs|
  {
    if p.segs != [] {
      var q := Path(p.segs[..|p.segs| - 1], p.segs[|p.segs| - 1]);
      FirstIsSlash(q);
      assert Render(p) == Render(q) + ([SLASH] + p.last);
    }
  }

  lemma {:induction false} PassNothing(segs: seq<Seg>)
    ensures PassSegs(segs, Nothing) == segs
  {
    if segs != [] {
      PassNothing(segs[..|segs| - 1]);
      assert segs == segs[..|segs| - 1] + [segs[|segs| - 1]];
    }
  }

  lemma SplitRender(p: Path)
    requires Tidy(p)
    ensures Render(p) != [] && Split(Render(p)) == p
  {
    FirstIsSlash(p);
    RunRender(p.segs, p.last, Nothing);
    PassNothing(p.segs);
  }

  lemma ResolveFixed(p: Path)
    requires Normalized(p)
    ensures Resolve(p) == p
  {
    StackFixed(p.segs);
  }

  /** A segment ".." takes the ordinary one in front of it along, and at the root there is nothing to take;
      "." and empty segments go, and any other stays. */
  lemma StackLaws(segs: seq<Seg>, s: Seg)
    requires Ordinary(s)
    ensures Stack(segs + [s]) == Stack(segs) + [s]
    ensures Stack(segs + [s, [Code('.'), Code('.')]]) == Stack(segs)
    ensures Stack(segs + [[Code('.')]]) == Stack(segs) && Stack(segs + [[]]) == Stack(segs)
    ensures Stack([]) == [] && Stack([[Code('.'), Code('.')]]) == []
  {
    var dots: Seg := [DOT, DOT];
    StackSnoc(segs, s);
    StackSnoc(segs, [DOT]);
    StackSnoc(segs, []);
    assert segs + [s, dots] == (segs + [s]) + [dots];
    StackSnoc(segs + [s], dots);
    StackSnoc([], dots);
    assert [] + [dots] == [dots];
  }

  lemma StackSnoc(segs: seq<Seg>, s: Seg)
    ensures Stack(segs + [s]) == StackPush(Stack(segs), s)
  {
    assert (segs + [s])[..|segs|] == segs;
  }

  /** The last segment has no slash behind it: a dot segment there leaves one, any other stays as it is. */
  lemma LastSegment(segs: seq<Seg>, last: Seg)
    ensures last == [Code('.')] ==> Resolve(Path(segs, last)) == Path(Stack(segs), [])
    ensures last == [Code('.'), Code('.')] ==> Resolve(Path(segs, last)) == Path(Front(Stack(segs)), [])
    ensures last != [Code('.')] && last != [Code('.'), Code('.')] ==>
      Resolve(Path(segs, last)) == Path(Stack(segs), last)
  {
  }

  /** A path is its segments, each behind a slash; normalizing decodes it first, without plus signs, and
      puts a slash in front if there is none. */
  lemma NormalIs(segs: seq<Seg>, last: Seg, src: seq<octet>)
    requires Tidy(Path(segs, last)) && src != []
    requires Render(Path(segs, last)) == (if src[0] == Code('/') then [] else [Code('/')]) + Decode(src, false)
    ensures Normal(src) == Render(Resolve(Path(segs, last)))
  {
    hide Resolve, Decode, Render;
    assert [] + Decode(src, false) == Decode(src, false);
    SplitRender(Path(segs, last));
  }

  lemma RenderLooks(segs: seq<Seg>, s: Seg, last: Seg)
    ensures Render(Path([], last)) == [Code('/')] + last
    ensures Render(Path(segs + [s], last)) == Render(Path(segs, s)) + [Code('/')] + last
  {
    assert (segs + [s])[..|segs|] == segs;
  }

  /** appendQuotedPath */
  function QuotePath(s: seq<octet>): seq<octet> { if s == [42] then s else Quote(s, false) }

  /** A star alone, the target of OPTIONS, is not quoted. */
  lemma StarStays(s: seq<octet>)
    ensures QuotePath([Code('*')]) == [Code('*')] && (s != [Code('*')] ==> QuotePath(s) == Quote(s, false))
  {
    hide Quote;
  }

  /** Quoting a normalized path and normalizing it again gives it back. */
  lemma NormalIsFixed(src: seq<octet>)
    ensures Normal(QuotePath(Normal(src))) == Normal(src)
  {
    hide Decode, Split, Resolve, Render;
    var x := Normal(src);
    NormalForm(src);
    assert Quote1(SLASH, false) == [SLASH] && Quote(x, false)[0] == SLASH;
    DecodeQuote(x, false);
    assert Rooted(QuotePath(x)) == x;
    ResolveFixed(Split(x));
  }
}
