/** What a lookup in the file cache finds, and what a run of the cleaner leaves
    (fasthttp/fs.go:1136-1294). */
module FsLookup {
  import opened Common
  import opened FsCache
  import opened FsProtocol

  /** A lookup in an open cache finds the file under that kind and path, and counts one more reader of it;
      a closed cache has nothing. */
  lemma GetFinds(c: Cache, k: Key)
    ensures var (c1, f) := GetSection(c, k);
      && (f.Some? <==> !c.closed && k in c.files)
      && (f.Some? ==> f.value == c.files[k] && Readers(c1, f.value) == Readers(c, f.value) + 1)
      && c1.files == c.files && c1.pending == c.pending && c1.closed == c.closed
      && (forall g: FileId :: f != Some(g) ==> Readers(c1, g) == Readers(c, g))
  {
  }

  /** What is stored is found from then on, unless something was there; then that is, and the new file
      is to be released. Other keys are not touched. */
  lemma StoreThenGet(c: Cache, k: Key, f: FileId)
    requires !c.closed
    ensures var (w, use) := SetSection(c, k, f);
      && GetSection(w.cache, k).1 == Some(use)
      && use == (if GetSection(c, k).1.Some? then GetSection(c, k).1.value else f)
      && w.out == (if GetSection(c, k).1.Some? then [f] else [])
      && Readers(w.cache, use) == Readers(c, use) + 1
      && (forall j :: j != k ==> GetSection(w.cache, j).1 == GetSection(c, j).1)
      && (forall g :: g != use ==> Readers(w.cache, g) == Readers(c, g))
  {
  }

  /** Nothing gets into a closed cache; its user still gets the file. */
  lemma StoreInClosed(c: Cache, k: Key, f: FileId)
    requires c.closed
    ensures var (w, use) := SetSection(c, k, f);
      use == f && w.out == [] && w.cache.files == c.files && Readers(w.cache, f) == Readers(c, f) + 1
  {
  }

  /** A reader that is done is counted off. Only the last one, and only of a closed cache, takes the file out
      for release; an open cache leaves that to its cleaner. */
  lemma DoneCountsOff(c: Cache, f: FileId)
    requires Readers(c, f) > 0
    ensures var w := DecSection(c, f);
      && Readers(w.cache, f) == Readers(c, f) - 1 && (forall g :: g != f ==> Readers(w.cache, g) == Readers(c, g))
      && w.cache.files == c.files && w.cache.closed == c.closed
      && w.out == (if c.closed && Readers(c, f) == 1 then [f] else [])
      && (w.out == [] ==> w.cache.pending == c.pending)
  {
  }

  /** The cleaner of a closed cache does nothing. */
  lemma CleanClosed(c: Cache, expired: seq<Key>)
    requires c.closed
    ensures CleanSection(c, expired) == Sweep(c, [])
  {
  }

  // ---- over whole runs

  /** The file on the shelf k after a run: the first one stored there since it was last swept. */
  ghost function Shelf(s: World, steps: seq<Step>, k: Key): Option<FileId> {
    if steps == [] then On(s.cache, k)
    else Shelved(Run(s, steps[..|steps| - 1]), steps[|steps| - 1], k, Shelf(s, steps[..|steps| - 1], k))
  }

  ghost function Shelved(s: World, step: Step, k: Key, was: Option<FileId>): Option<FileId> {
    match step
    case Store(j, f) => if j == k && was.None? && f in s.unstored && !s.cache.closed then Some(f) else was
    case Clean(expired) => if k in expired && !s.cache.closed then None else was
    case CloseCache(keys) => if Closes(s, keys) then None else was
    case _ => was
  }

  /** The close runs: it was asked for, is the first, and ranges over every key. */
  ghost predicate Closes(s: World, keys: seq<Key>) {
    s.stopped && !s.cache.closed && forall k :: k in s.cache.files ==> k in keys
  }

  ghost function On(c: Cache, k: Key): Option<FileId> { if k in c.files then Some(c.files[k]) else None }

  /** In every run a lookup finds what the shelf holds, for all kinds and paths. */
  lemma {:induction false} LookupIsShelf(s: World, steps: seq<Step>, k: Key)
    ensures On(Run(s, steps).cache, k) == Shelf(s, steps, k)
    ensures !Run(s, steps).cache.closed ==> GetSection(Run(s, steps).cache, k).1 == Shelf(s, steps, k)
  {
    if steps != [] {
      hide Next, On, Closes;
      LookupIsShelf(s, steps[..|steps| - 1], k);
      StepShelf(Run(s, steps[..|steps| - 1]), steps[|steps| - 1], k);
    }
    GetFinds(Run(s, steps).cache, k);
  }

  lemma StepShelf(s: World, step: Step, k: Key)
    ensures On(Next(s, step).cache, k) == Shelved(s, step, k, On(s.cache, k))
  {
    hide CleanSection, CloseSection, Relocate, GetSection, SetSection, DecSection, StoreStep, DoneStep, GetStep, Apply;
    match step
    case Get(j) => GetShelf(s, j);
    case Store(j, f) => if f in s.unstored { StoreShelf(s, j, f, k); }
    case Done(f) => if f in s.holders && Readers(s.cache, f) > 0 { DecShelf(s, f); }
    case Clean(expired) =>
      ApplyShelf(s, CleanSection(s.cache, expired));
      CleanLeaves(s.cache, expired);
    case CloseCache(keys) =>
      ApplyShelf(s, CloseSection(s.cache, keys));
      CloseLeaves(s.cache, keys);
    case _ =>
  }

  lemma GetShelf(s: World, j: Key)
    ensures GetStep(s, j).cache.files == s.cache.files
  {
  }

  lemma ApplyShelf(s: World, w: Sweep)
    ensures Apply(s, w).cache == w.cache
  {
  }

  lemma StoreShelf(s: World, j: Key, f: FileId, k: Key)
    ensures On(StoreStep(s, j, f).cache, k) ==
      if j == k && On(s.cache, k).None? && !s.cache.closed then Some(f) else On(s.cache, k)
  {
  }

  lemma DecShelf(s: World, f: FileId)
    requires Readers(s.cache, f) > 0
    ensures DoneStep(s, f).cache.files == s.cache.files
  {
  }

  lemma {:induction false} AddFilesKeeps(w: Sweep, fs: seq<FileId>)
    ensures AddFiles(w, fs).cache.files == w.cache.files && AddFiles(w, fs).cache.closed == w.cache.closed
    ensures AddFiles(w, fs).cache.readers == w.cache.readers
  {
    if fs != [] { AddFilesKeeps(w, fs[..|fs| - 1]); }
  }

  /** A run of the cleaner takes exactly the expired keys out of an open cache. */
  lemma CleanLeaves(c: Cache, expired: seq<Key>)
    ensures CleanSection(c, expired).cache.files ==
      if c.closed then c.files else map k | k in c.files && k !in expired :: c.files[k]
    ensures CleanSection(c, expired).cache.closed == c.closed
  {
    hide EvictAll, AddFiles;
    AddFilesKeeps(Sweep(c.(pending := []), []), c.pending);
    EvictAllFiles(Recheck(Sweep(c, [])), expired);
  }

  lemma CloseLeaves(c: Cache, keys: seq<Key>)
    ensures CloseSection(c, keys).cache.files == map k | k in c.files && k !in keys :: c.files[k]
    ensures CloseSection(c, keys).cache.closed
  {
    hide EvictAll, AddFiles;
    var w := EvictAll(Sweep(c.(closed := true), []), keys);
    EvictAllFiles(Sweep(c.(closed := true), []), keys);
    AddFilesKeeps(w.(cache := w.cache.(pending := [])), w.cache.pending);
  }

  /** Afterwards every file that is kept pending is being read; those that nobody read are collected. */
  lemma CleanCollects(c: Cache, expired: seq<Key>)
    requires !c.closed && Distinct(c.pending)
    ensures var w := CleanSection(c, expired);
      && (forall f :: f in w.cache.pending ==> Readers(c, f) > 0)
      && (forall f :: f in c.pending ==>
            (f in w.cache.pending && Readers(c, f) > 0) || (f in w.out && Readers(c, f) == 0))
      && (forall k :: k in c.files && k in expired ==>
            var f := c.files[k]; (f in w.cache.pending && Readers(c, f) > 0) || (f in w.out && Readers(c, f) == 0))
  {
    var w0 := Sweep(c.(pending := []), []);
    AddFilesSplits(w0, c.pending);
    BusyIn(w0.cache, c.pending, true);
    BusyIn(w0.cache, c.pending, false);
    assert forall f :: Readers(w0.cache, f) == Readers(c, f);
    hide AddFiles, EvictAll, Distinct;
    EvictCollects(Recheck(Sweep(c, [])), expired);
  }

  ghost predicate Grows(w: Sweep, w1: Sweep) {
    && w1.cache.readers == w.cache.readers
    && (forall f :: f in w.cache.pending ==> f in w1.cache.pending)
    && (forall f :: f in w.out ==> f in w1.out)
    && (forall f :: f in w1.cache.pending ==> f in w.cache.pending || Readers(w.cache, f) > 0)
  }

  ghost predicate Collected(w: Sweep, f: FileId) {
    (f in w.cache.pending && Readers(w.cache, f) > 0) || (f in w.out && Readers(w.cache, f) == 0)
  }

  lemma {:induction false} EvictCollects(w: Sweep, keys: seq<Key>)
    ensures Grows(w, EvictAll(w, keys))
    ensures forall k :: k in w.cache.files && k in keys ==> Collected(EvictAll(w, keys), w.cache.files[k])
  {
    if keys != [] {
      var front, last := keys[..|keys| - 1], keys[|keys| - 1];
      EvictCollects(w, front);
      EvictAllFiles(w, front);
      assert keys == front + [last];
      var w1 := EvictAll(w, front);
      hide EvictAll;
      EvictOne(w1, last);
      forall k | k in w.cache.files && k in keys ensures Collected(Evict(w1, last), w.cache.files[k]) {
        if k in front { assert Collected(w1, w.cache.files[k]); }
      }
    }
  }

  lemma EvictOne(w: Sweep, k: Key)
    ensures Grows(w, Evict(w, k)) && (k in w.cache.files ==> Collected(Evict(w, k), w.cache.files[k]))
    ensures forall f :: Collected(w, f) ==> Collected(Evict(w, k), f)
  {
  }

  /** When a step of the cache's users changes something; a cleaner's run is CleanLeaves and CleanCollects. */
  predicate Enabled(s: World, step: Step) {
    match step
    case Open => true
    case Get(k) => !s.cache.closed && k in s.cache.files
    case Store(_, f) => f in s.unstored
    case Done(f) => f in s.holders && Readers(s.cache, f) > 0
    case StopOnce => !s.stopped
    case CloseCache(keys) => s.stopped && !s.cache.closed && forall k :: k in s.cache.files ==> k in keys
    case Release(f) => f in s.doomed
    case Clean(_) => true
  }

  lemma EnabledExactly(s: World, step: Step)
    requires !step.Clean?
    ensures Next(s, step) != s <==> Enabled(s, step)
  {
    hide CleanSection, CloseSection, Relocate, SetSection, DecSection;
    match step
    case Get(k) =>
      if !s.cache.closed && k in s.cache.files {
        var f := s.cache.files[k];
        assert GetStep(s, k).holders[f] > s.holders[f];
      }
    case Store(k, f) => if f in s.unstored { assert f !in StoreStep(s, k, f).unstored; }
    case Done(f) => if f in s.holders && Readers(s.cache, f) > 0 { assert DoneStep(s, f).holders[f] < s.holders[f]; }
    case CloseCache(keys) => CloseLeaves(s.cache, keys);
    case Release(f) => if f in s.doomed { assert Next(s, step).doomed[f] < s.doomed[f]; }
    case _ =>
  }

  /** A collected file is released, and a section's collection is added to what is to be released. */
  lemma ReleaseMoves(s: World, f: FileId, w: Sweep)
    requires f in s.doomed
    ensures Next(s, Release(f)).doomed == s.doomed - multiset{f}
    ensures Next(s, Release(f)).released == s.released + multiset{f}
    ensures Apply(s, w).doomed == s.doomed + multiset(w.out) && Apply(s, w).cache == w.cache
  {
  }
}
