/** Every interleaving of the file cache's users: handlers that open, look up, store and stop
    reading files, the cleaner, and whoever closes the cache. */
module FsProtocol {
  import opened Common
  import opened FsCache

  datatype Place = Unstored | Cached(k: Key) | Kept | Loose | Doomed | Gone

  /** `holders` are the references that handlers and readers hold, `doomed` the files that some
      section has collected and its caller has not released yet. `loose` are files that were
      stored after the cache had closed; `place` is bookkeeping that no step consults. */
  datatype World = World(
    cache: Cache,
    stopped: bool,                                 // cleanStopOnce has run
    unstored: set<FileId>,
    holders: multiset<FileId>,
    loose: set<FileId>,
    doomed: multiset<FileId>,
    released: multiset<FileId>,
    place: map<FileId, Place>,
    nextFile: FileId)

  datatype Step =
    | Open
    | Get(k: Key)
    | Store(k: Key, f: FileId)
    | Done(f: FileId)
    | Clean(expired: seq<Key>)
    | StopOnce
    | CloseCache(keys: seq<Key>)
    | Release(f: FileId)

  /** Where files are after a section has collected some for release. */
  function Relocate(place: map<FileId, Place>, w: Sweep): map<FileId, Place> {
    map f | f in place :: if f in w.out then Doomed else if f in w.cache.pending then Kept else place[f]
  }

  function Apply(s: World, w: Sweep): World {
    s.(cache := w.cache, doomed := s.doomed + multiset(w.out), place := Relocate(s.place, w))
  }

  function Next(s: World, step: Step): World {
    match step
    case Open =>
      s.(unstored := s.unstored + {s.nextFile}, place := s.place[s.nextFile := Unstored], nextFile := s.nextFile + 1)
    case Get(k) => GetStep(s, k)
    case Store(k, f) => if f in s.unstored then StoreStep(s, k, f) else s
    case Done(f) => if f in s.holders && Readers(s.cache, f) > 0 then DoneStep(s, f) else s
    case Clean(expired) => Apply(s, CleanSection(s.cache, expired))
    case StopOnce => s.(stopped := true)
    case CloseCache(keys) =>
      if s.stopped && !s.cache.closed && (forall k :: k in s.cache.files ==> k in keys)
      then Apply(s, CloseSection(s.cache, keys)) else s
    case Release(f) =>
      if f in s.doomed
      then s.(doomed := s.doomed - multiset{f}, released := s.released + multiset{f}, place := s.place[f := Gone])
      else s
  }

  function GetStep(s: World, k: Key): World {
    var (c, f) := GetSection(s.cache, k);
    if f.Some? then s.(cache := c, holders := s.holders + multiset{f.value}) else s
  }

  function StoreStep(s: World, k: Key, f: FileId): World {
    var (w, use) := SetSection(s.cache, k, f);
    s.(cache := w.cache, unstored := s.unstored - {f}, holders := s.holders + multiset{use},
       loose := if s.cache.closed then s.loose + {f} else s.loose, doomed := s.doomed + multiset(w.out),
       place := s.place[f := if s.cache.closed then Loose else if use == f then Cached(k) else Doomed])
  }

  function DoneStep(s: World, f: FileId): World
    requires Readers(s.cache, f) > 0
  {
    var w := DecSection(s.cache, f);
    s.(cache := w.cache, holders := s.holders - multiset{f}, doomed := s.doomed + multiset(w.out),
       loose := if w.out == [] then s.loose else s.loose - {f},
       place := if w.out == [] then s.place else s.place[f := Doomed])
  }

  function Run(s: World, steps: seq<Step>): World {
    if steps == [] then s else Next(Run(s, steps[..|steps| - 1]), steps[|steps| - 1])
  }

  function Initial(): World {
    World(Cache(map[], map[], [], false), false, {}, multiset{}, {}, multiset{}, multiset{}, map[], 0)
  }

  // ---- what every step keeps

  predicate In(s: World, p: Place, f: FileId) {
    match p
    case Unstored => f in s.unstored
    case Cached(k) => k in s.cache.files && s.cache.files[k] == f
    case Kept => f in s.cache.pending
    case Loose => f in s.loose
    case Doomed => f in s.doomed
    case Gone => f in s.released
  }

  /** Every file is in exactly one place. */
  ghost predicate PlacesOk(s: World) { forall p, f :: In(s, p, f) <==> f in s.place && s.place[f] == p }

  predicate Unread(p: Place) { p.Unstored? || p.Doomed? || p.Gone? }

  /** readersCount counts the references; files that are about to be or have been released have
      none, and were collected and released once. */
  predicate CountOk(s: World, f: FileId) {
    && Readers(s.cache, f) == s.holders[f]
    && (f in s.place <==> f < s.nextFile)
    && (f !in s.place || Unread(s.place[f]) ==> Readers(s.cache, f) == 0)
    && s.doomed[f] <= 1 && s.released[f] <= 1
  }

  ghost predicate CountsOk(s: World) { forall f :: CountOk(s, f) }

  /** A closed cache keeps only files that are being read. */
  ghost predicate ClosedOk(s: World) {
    && (s.cache.closed ==> s.cache.files == map[])
    && (s.cache.closed ==> forall f :: f in s.cache.pending || f in s.loose ==> Readers(s.cache, f) > 0)
    && (!s.cache.closed ==> s.loose == {})
  }

  ghost predicate Core(s: World) { PlacesOk(s) && CountsOk(s) && Distinct(s.cache.pending) }

  ghost predicate Inv(s: World) { Core(s) && ClosedOk(s) }

  lemma Lies(s: World, p: Place, f: FileId)
    requires PlacesOk(s)
    ensures In(s, p, f) <==> f in s.place && s.place[f] == p
  {
  }

  lemma PlacesFrom(s: World)
    requires forall p, f :: In(s, p, f) <==> f in s.place && s.place[f] == p
    ensures PlacesOk(s)
  {
  }

  lemma Counted(s: World, f: FileId)
    requires CountsOk(s)
    ensures CountOk(s, f)
  {
  }

  // ---- steps on one file

  lemma OpenKeeps(s: World)
    requires Inv(s)
    ensures Inv(Next(s, Open))
  {
    hide PlacesOk, CountsOk;
    var s1 := Next(s, Open);
    Counted(s, s.nextFile);
    forall p, f ensures In(s1, p, f) <==> f in s1.place && s1.place[f] == p { Lies(s, p, f); }
    PlacesFrom(s1);
    assert CountsOk(s1) by { forall f ensures CountOk(s1, f) { Counted(s, f); } CountsFrom(s1); }
  }

  lemma CountsFrom(s: World)
    requires forall f :: CountOk(s, f)
    ensures CountsOk(s)
  {
  }

  lemma GetKeeps(s: World, k: Key)
    requires Inv(s)
    ensures Inv(GetStep(s, k))
  {
    hide PlacesOk, CountsOk;
    var s1 := GetStep(s, k);
    if k in s.cache.files { Lies(s, Cached(k), s.cache.files[k]); }
    forall p, f ensures In(s1, p, f) <==> f in s1.place && s1.place[f] == p { Lies(s, p, f); }
    PlacesFrom(s1);
    forall f ensures CountOk(s1, f) { Counted(s, f); }
    CountsFrom(s1);
  }

  lemma StorePlaces(s: World, k: Key, f: FileId)
    requires PlacesOk(s) && f in s.unstored
    ensures PlacesOk(StoreStep(s, k, f))
  {
    hide PlacesOk;
    var s1 := StoreStep(s, k, f);
    Lies(s, Unstored, f);
    if k in s.cache.files { Lies(s, Cached(k), f); }
    forall p, g ensures In(s1, p, g) <==> g in s1.place && s1.place[g] == p { Lies(s, p, g); }
    PlacesFrom(s1);
  }

  lemma StoreCounts(s: World, k: Key, f: FileId)
    requires PlacesOk(s) && CountsOk(s) && f in s.unstored
    ensures CountsOk(StoreStep(s, k, f))
  {
    hide PlacesOk, CountsOk;
    var s1 := StoreStep(s, k, f);
    Lies(s, Unstored, f);
    Lies(s, Doomed, f);
    if k in s.cache.files { Lies(s, Cached(k), s.cache.files[k]); }
    forall g ensures CountOk(s1, g) { Counted(s, g); }
    CountsFrom(s1);
  }

  lemma StoreKeeps(s: World, k: Key, f: FileId)
    requires Inv(s) && f in s.unstored
    ensures Inv(StoreStep(s, k, f))
  {
    hide PlacesOk, CountsOk, Distinct;
    StorePlaces(s, k, f);
    StoreCounts(s, k, f);
  }

  lemma DropOne(q: seq<FileId>, i: nat)
    requires Distinct(q) && i < |q|
    ensures Distinct(q[..i] + q[i + 1..])
    ensures forall g :: g in q[..i] + q[i + 1..] <==> g in q && g != q[i]
  {
    var r := q[..i] + q[i + 1..];
    assert forall a :: 0 <= a < |r| ==> r[a] == q[if a < i then a else a + 1];
    forall g ensures g in r <==> g in q && g != q[i] {
      if g in q && g != q[i] {
        var a :| 0 <= a < |q| && q[a] == g;
        assert r[if a < i then a else a - 1] == g;
      }
    }
  }

  lemma WithoutIn(q: seq<FileId>, f: FileId)
    requires Distinct(q)
    ensures Distinct(Without(q, f)) && forall g :: g in Without(q, f) <==> g in q && g != f
  {
    if f in q {
      var i :| 0 <= i < |q| && q[i] == f;
      WithoutAt(q, f, i);
      DropOne(q, i);
    } else {
      WithoutNone(q, f);
    }
  }

  predicate Ends(s: World, f: FileId) { f in s.holders && Readers(s.cache, f) > 0 }

  /** The last reader of a file of a closed cache leaves. */
  lemma LastReader(s: World, f: FileId)
    requires Inv(s) && Ends(s, f)
    ensures DecSection(s.cache, f).out != [] ==> f in s.place && (s.place[f] == Kept || s.place[f] == Loose)
    ensures f in s.place && s.doomed[f] == 0 && s.released[f] == 0
  {
    hide PlacesOk, CountsOk;
    Counted(s, f);
    Lies(s, Doomed, f);
    Lies(s, Gone, f);
    Lies(s, s.place[f], f);
  }

  lemma DonePlaces(s: World, f: FileId)
    requires Inv(s) && Ends(s, f)
    ensures PlacesOk(DoneStep(s, f)) && Distinct(DoneStep(s, f).cache.pending)
  {
    hide PlacesOk, CountsOk, Distinct, Without;
    var s1 := DoneStep(s, f);
    LastReader(s, f);
    WithoutIn(s.cache.pending, f);
    forall p, g ensures In(s1, p, g) <==> g in s1.place && s1.place[g] == p { Lies(s, p, g); }
    PlacesFrom(s1);
  }

  lemma DoneCounts(s: World, f: FileId)
    requires Inv(s) && Ends(s, f)
    ensures CountsOk(DoneStep(s, f))
  {
    hide PlacesOk, CountsOk, Distinct, Without;
    LastReader(s, f);
    var s1 := DoneStep(s, f);
    forall g ensures CountOk(s1, g) { Counted(s, g); }
    CountsFrom(s1);
  }

  lemma DoneClosed(s: World, f: FileId)
    requires Inv(s) && Ends(s, f)
    ensures ClosedOk(DoneStep(s, f))
  {
    hide PlacesOk, CountsOk, Distinct, Without;
    WithoutIn(s.cache.pending, f);
  }

  lemma DoneKeeps(s: World, f: FileId)
    requires Inv(s) && Ends(s, f)
    ensures Inv(DoneStep(s, f))
  {
    hide PlacesOk, CountsOk, Distinct, ClosedOk, DoneStep;
    DonePlaces(s, f);
    DoneCounts(s, f);
    DoneClosed(s, f);
  }

  lemma ReleaseKeeps(s: World, f: FileId)
    requires Inv(s) && f in s.doomed
    ensures Inv(Next(s, Release(f)))
  {
    hide PlacesOk, CountsOk, Distinct;
    var s1 := Next(s, Release(f));
    Lies(s, Doomed, f);
    Lies(s, Gone, f);
    Counted(s, f);
    forall p, g ensures In(s1, p, g) <==> g in s1.place && s1.place[g] == p { Lies(s, p, g); }
    PlacesFrom(s1);
    forall g ensures CountOk(s1, g) { Counted(s, g); }
    CountsFrom(s1);
  }

  // ---- sweeps

  /** Where AddFile puts f. */
  function Target(c: Cache, f: FileId): Place { if Readers(c, f) > 0 then Kept else Doomed }

  /** A turn of an evicting loop moves the file of k, and nothing else. */
  lemma EvictMoves(s: World, w: Sweep, k: Key)
    requires PlacesOk(Apply(s, w)) && k in w.cache.files
    ensures var a, b, f := Apply(s, w), Apply(s, Evict(w, k)), w.cache.files[k];
      && f in a.place && a.place[f] == Cached(k) && f !in w.out && f !in w.cache.pending
      && b.place == a.place[f := Target(w.cache, f)]
  {
    hide PlacesOk;
    var a, f := Apply(s, w), w.cache.files[k];
    Lies(a, Cached(k), f);
    Lies(a, Kept, f);
    Lies(a, Doomed, f);
  }

  lemma EvictPlaces(s: World, w: Sweep, k: Key)
    requires PlacesOk(Apply(s, w)) && k in w.cache.files
    ensures PlacesOk(Apply(s, Evict(w, k)))
  {
    var a, b, f := Apply(s, w), Apply(s, Evict(w, k)), w.cache.files[k];
    EvictMoves(s, w, k);
    hide PlacesOk, Relocate;
    forall p, g ensures In(b, p, g) <==> g in b.place && b.place[g] == p { Lies(a, p, g); }
    PlacesFrom(b);
  }

  lemma EvictCounts(s: World, w: Sweep, k: Key)
    requires PlacesOk(Apply(s, w)) && CountsOk(Apply(s, w)) && k in w.cache.files
    ensures CountsOk(Apply(s, Evict(w, k)))
  {
    var a, b, f := Apply(s, w), Apply(s, Evict(w, k)), w.cache.files[k];
    EvictMoves(s, w, k);
    hide PlacesOk, CountsOk, Relocate;
    Lies(a, Doomed, f);
    forall g ensures CountOk(b, g) { Counted(a, g); }
    CountsFrom(b);
  }

  lemma EvictCore(s: World, w: Sweep, k: Key)
    requires Core(Apply(s, w))
    ensures Core(Apply(s, Evict(w, k)))
  {
    hide PlacesOk, CountsOk, Distinct, Relocate;
    if k in w.cache.files {
      EvictMoves(s, w, k);
      EvictPlaces(s, w, k);
      EvictCounts(s, w, k);
      DistinctSnoc(w.cache.pending, w.cache.files[k]);
    }
  }

  lemma DistinctSnoc(q: seq<FileId>, f: FileId)
    requires Distinct(q) && f !in q
    ensures Distinct(q + [f])
  {
  }

  lemma {:induction false} EvictAllCore(s: World, w: Sweep, keys: seq<Key>)
    requires Core(Apply(s, w))
    ensures Core(Apply(s, EvictAll(w, keys)))
  {
    hide Core, Apply, Evict;
    if keys != [] {
      EvictAllCore(s, w, keys[..|keys| - 1]);
      EvictCore(s, EvictAll(w, keys[..|keys| - 1]), keys[|keys| - 1]);
    }
  }

  /** An evicting loop removes the keys it visits, and changes neither counts nor the flag. */
  lemma {:induction false} EvictAllFiles(w: Sweep, keys: seq<Key>)
    ensures var r := EvictAll(w, keys).cache;
      r.files == w.cache.files - (set k | k in keys) && r.closed == w.cache.closed && r.readers == w.cache.readers
  {
    if keys != [] { EvictAllFiles(w, keys[..|keys| - 1]); }
  }

  function Busy(c: Cache, fs: seq<FileId>, busy: bool): seq<FileId> {
    if fs == [] then []
    else Busy(c, fs[..|fs| - 1], busy) + if (Readers(c, fs[|fs| - 1]) > 0) == busy then [fs[|fs| - 1]] else []
  }

  lemma {:induction false} AddFilesSplits(w: Sweep, fs: seq<FileId>)
    ensures AddFiles(w, fs) ==
      Sweep(w.cache.(pending := w.cache.pending + Busy(w.cache, fs, true)), w.out + Busy(w.cache, fs, false))
  {
    if fs != [] { AddFilesSplits(w, fs[..|fs| - 1]); }
  }

  lemma {:induction false} BusyIn(c: Cache, fs: seq<FileId>, busy: bool)
    requires Distinct(fs)
    ensures Distinct(Busy(c, fs, busy))
    ensures forall f :: f in Busy(c, fs, busy) <==> f in fs && (Readers(c, f) > 0) == busy
  {
    if fs != [] {
      var front, last := fs[..|fs| - 1], fs[|fs| - 1];
      BusyIn(c, front, busy);
      assert fs == front + [last] && last !in front;
    }
  }

  lemma {:induction false} DistinctCount(q: seq<FileId>, f: FileId)
    requires Distinct(q)
    ensures multiset(q)[f] == if f in q then 1 else 0
  {
    if q != [] {
      var front, last := q[..|q| - 1], q[|q| - 1];
      DistinctCount(front, f);
      assert q == front + [last] && last !in front;
    }
  }

  /** Looking at the pending files again moves those that nobody reads any more. */
  lemma RecheckMoves(s: World, w: Sweep)
    requires Core(Apply(s, w))
    ensures var r := Recheck(w);
      && r.cache == w.cache.(pending := r.cache.pending)
      && w.out <= r.out && Distinct(r.cache.pending) && Distinct(r.out[|w.out|..])
      && (forall f :: f in r.cache.pending <==> f in w.cache.pending && Readers(w.cache, f) > 0)
      && (forall f :: f in r.out[|w.out|..] <==> f in w.cache.pending && Readers(w.cache, f) == 0)
  {
    hide PlacesOk, CountsOk;
    var c := w.cache.(pending := []);
    AddFilesSplits(w.(cache := c), w.cache.pending);
    BusyIn(c, w.cache.pending, true);
    BusyIn(c, w.cache.pending, false);
    assert Recheck(w).out[|w.out|..] == Busy(c, w.cache.pending, false);
  }

  /** One file of a sweep, before and after. */
  lemma RecheckPoint(s: World, w: Sweep, f: FileId)
    requires Core(Apply(s, w))
    ensures var a, b := Apply(s, w), Apply(s, Recheck(w));
      && (f in b.place <==> f in a.place)
      && (f in a.place ==> b.place[f] == if a.place[f] == Kept && Readers(a.cache, f) == 0 then Doomed else a.place[f])
      && b.doomed[f] == a.doomed[f] + if f in a.cache.pending && Readers(a.cache, f) == 0 then 1 else 0
  {
    var a, b, r := Apply(s, w), Apply(s, Recheck(w)), Recheck(w);
    RecheckMoves(s, w);
    hide CountsOk, Recheck, PlacesOk, Distinct;
    Lies(a, Kept, f);
    Lies(a, Doomed, f);
    assert r.out == w.out + r.out[|w.out|..];
    DistinctCount(r.out[|w.out|..], f);
    assert multiset(r.out)[f] == multiset(w.out)[f] + multiset(r.out[|w.out|..])[f];
  }

  lemma RecheckPlaces(s: World, w: Sweep)
    requires Core(Apply(s, w))
    ensures PlacesOk(Apply(s, Recheck(w)))
  {
    var a, b := Apply(s, w), Apply(s, Recheck(w));
    RecheckMoves(s, w);
    hide PlacesOk, CountsOk, Relocate, Recheck, Distinct;
    forall p, f ensures In(b, p, f) <==> f in b.place && b.place[f] == p {
      RecheckPoint(s, w, f);
      Lies(a, p, f);
      Lies(a, Kept, f);
    }
    PlacesFrom(b);
  }

  lemma RecheckCounts(s: World, w: Sweep)
    requires Core(Apply(s, w))
    ensures CountsOk(Apply(s, Recheck(w)))
  {
    var a, b := Apply(s, w), Apply(s, Recheck(w));
    RecheckMoves(s, w);
    hide PlacesOk, CountsOk, Relocate, Recheck, Distinct;
    forall f ensures CountOk(b, f) {
      RecheckPoint(s, w, f);
      Counted(a, f);
      Lies(a, Kept, f);
      Lies(a, Doomed, f);
    }
    CountsFrom(b);
  }

  lemma RecheckCore(s: World, w: Sweep)
    requires Core(Apply(s, w))
    ensures Core(Apply(s, Recheck(w)))
  {
    hide PlacesOk, CountsOk, Relocate, Recheck, Distinct;
    RecheckPlaces(s, w);
    RecheckCounts(s, w);
    RecheckMoves(s, w);
  }

  lemma NoSweep(s: World, c: Cache)
    requires Core(s) && c == s.cache.(closed := c.closed)
    ensures Core(Apply(s, Sweep(c, [])))
  {
    hide PlacesOk, CountsOk;
    var b := Apply(s, Sweep(c, []));
    forall f | f in s.place ensures b.place[f] == s.place[f] { Lies(s, Kept, f); }
    assert b.place == s.place;
    forall p, f ensures In(b, p, f) <==> f in b.place && b.place[f] == p { Lies(s, p, f); }
    PlacesFrom(b);
    forall f ensures CountOk(b, f) { Counted(s, f); }
    CountsFrom(b);
  }

  lemma CleanKeeps(s: World, expired: seq<Key>)
    requires Inv(s)
    ensures Inv(Apply(s, CleanSection(s.cache, expired)))
  {
    NoSweep(s, s.cache);
    hide Core;
    var w := Sweep(s.cache, []);
    RecheckCore(s, w);
    EvictAllCore(s, Recheck(w), expired);
    if !s.cache.closed {
      EvictAllFiles(Recheck(w), expired);
      RecheckMoves(s, w);
    }
  }

  lemma CloseKeeps(s: World, keys: seq<Key>)
    requires Inv(s) && !s.cache.closed && forall k :: k in s.cache.files ==> k in keys
    ensures Inv(Apply(s, CloseSection(s.cache, keys)))
  {
    var c := s.cache.(closed := true);
    NoSweep(s, c);
    hide Core;
    var w := EvictAll(Sweep(c, []), keys);
    EvictAllCore(s, Sweep(c, []), keys);
    EvictAllFiles(Sweep(c, []), keys);
    RecheckCore(s, w);
    RecheckMoves(s, w);
  }

  // ---- whole runs

  lemma StepKeeps(s: World, step: Step)
    requires Inv(s)
    ensures Inv(Next(s, step))
  {
    match step
    case Open => OpenKeeps(s);
    case Get(k) => hide Inv, GetStep; GetKeeps(s, k);
    case Store(k, f) => hide Inv, StoreStep; if f in s.unstored { StoreKeeps(s, k, f); }
    case Done(f) => hide Inv, DoneStep; if Ends(s, f) { DoneKeeps(s, f); }
    case Clean(expired) => hide Inv, Apply; CleanKeeps(s, expired);
    case StopOnce => hide PlacesOk, CountsOk, Distinct; StopKeeps(s);
    case CloseCache(keys) =>
      hide Inv, Apply;
      if !s.cache.closed && forall k :: k in s.cache.files ==> k in keys { CloseKeeps(s, keys); }
    case Release(f) => hide Inv; if f in s.doomed { ReleaseKeeps(s, f); }
  }

  lemma StopKeeps(s: World)
    requires Core(s)
    ensures Core(s.(stopped := true))
  {
    hide PlacesOk, CountsOk, Distinct;
    var s1 := s.(stopped := true);
    forall p, f ensures In(s1, p, f) <==> f in s1.place && s1.place[f] == p { Lies(s, p, f); }
    PlacesFrom(s1);
    forall f ensures CountOk(s1, f) { Counted(s, f); }
    CountsFrom(s1);
  }

  lemma {:induction false} RunKeeps(s: World, steps: seq<Step>)
    requires Inv(s)
    ensures Inv(Run(s, steps))
  {
    hide Inv, Next;
    if steps != [] {
      RunKeeps(s, steps[..|steps| - 1]);
      StepKeeps(Run(s, steps[..|steps| - 1]), steps[|steps| - 1]);
    }
  }

  lemma InitialInv()
    ensures Inv(Initial())
  {
  }

  /** In every run a file is released at most once; while it is referenced or its readersCount
      is positive it neither has been released nor is about to be; and readersCount never falls
      below zero. */
  lemma ReleasedOnceAndUnread(steps: seq<Step>, f: FileId)
    ensures var s := Run(Initial(), steps);
      && s.released[f] + s.doomed[f] <= 1
      && (Readers(s.cache, f) > 0 ==> s.released[f] == 0 && s.doomed[f] == 0)
      && s.holders[f] == Readers(s.cache, f)
  {
    InitialInv();
    RunKeeps(Initial(), steps);
    hide Run, PlacesOk, CountsOk, Distinct, ClosedOk;
    var s := Run(Initial(), steps);
    Counted(s, f);
    Lies(s, Doomed, f);
    Lies(s, Gone, f);
  }

  /** Once the cache is closed, nobody holds a file and what was collected has been released,
      every file ever stored has been released, exactly once. */
  lemma EverythingReleased(steps: seq<Step>, f: FileId)
    ensures var s := Run(Initial(), steps);
      s.cache.closed && s.holders == multiset{} && s.doomed == multiset{} && f < s.nextFile && f !in s.unstored
      ==> s.released[f] == 1
  {
    InitialInv();
    RunKeeps(Initial(), steps);
    hide Run, PlacesOk, CountsOk, Distinct;
    var s := Run(Initial(), steps);
    Counted(s, f);
    if f in s.place { Lies(s, s.place[f], f); }
  }
}
