/** The file cache of the FS handler (fasthttp/fs.go:1077-1294): files are shared by readers,
    leave the cache when they expire or it closes, and are released once nobody reads them. */
module FsCache {
  import opened Common

  type FileId = nat

  /** The kind selects one of the four cache maps. */
  datatype Kind = Plain | Brotli | Gzip | Zstd
  datatype Key = Key(kind: Kind, path: string)

  /** What cacheLock protects, with the readersCount of every file. */
  datatype Cache = Cache(files: map<Key, FileId>, readers: map<FileId, nat>, pending: seq<FileId>, closed: bool)

  /** The cache and the files collected for release so far. They are released after the lock has
      been given up. */
  datatype Sweep = Sweep(cache: Cache, out: seq<FileId>)

  function Readers(c: Cache, f: FileId): nat { if f in c.readers then c.readers[f] else 0 }

  function AddReader(c: Cache, f: FileId): Cache { c.(readers := c.readers[f := Readers(c, f) + 1]) }

  // ---- the critical sections

  /** GetFileFromCache */
  function GetSection(c: Cache, k: Key): (Cache, Option<FileId>) {
    if c.closed || k !in c.files then (c, None) else (AddReader(c, c.files[k]), Some(c.files[k]))
  }

  /** SetFileToCache with a file the caller has opened. If the key has a file by now, that one is
      used and the new one is to be released. */
  function SetSection(c: Cache, k: Key, f: FileId): (Sweep, FileId) {
    if c.closed then (Sweep(AddReader(c, f), []), f)
    else if k in c.files then (Sweep(AddReader(c, c.files[k]), [f]), c.files[k])
    else (Sweep(AddReader(c, f).(files := c.files[k := f]), []), f)
  }

  /** s without the first f. */
  function Without(s: seq<FileId>, f: FileId): seq<FileId> {
    if s == [] then [] else if s[0] == f then s[1..] else [s[0]] + Without(s[1..], f)
  }

  /** DecReadersCount, called by a reader of f. */
  function DecSection(c: Cache, f: FileId): Sweep
    requires Readers(c, f) > 0
  {
    var c1 := c.(readers := c.readers[f := Readers(c, f) - 1]);
    if c.closed && Readers(c, f) == 1 then Sweep(c1.(pending := Without(c.pending, f)), [f]) else Sweep(c1, [])
  }

  /** addFileToReleaseNolock */
  function AddFile(w: Sweep, f: FileId): Sweep {
    if Readers(w.cache, f) > 0 then w.(cache := w.cache.(pending := w.cache.pending + [f])) else w.(out := w.out + [f])
  }

  function AddFiles(w: Sweep, fs: seq<FileId>): Sweep {
    if fs == [] then w else AddFile(AddFiles(w, fs[..|fs| - 1]), fs[|fs| - 1])
  }

  /** One turn of the loops over a cache map, which delete what they visit. */
  function Evict(w: Sweep, k: Key): Sweep {
    if k in w.cache.files then AddFile(w.(cache := w.cache.(files := w.cache.files - {k})), w.cache.files[k]) else w
  }

  function EvictAll(w: Sweep, keys: seq<Key>): Sweep {
    if keys == [] then w else Evict(EvictAll(w, keys[..|keys| - 1]), keys[|keys| - 1])
  }

  /** The pending files are looked at again. */
  function Recheck(w: Sweep): Sweep { AddFiles(w.(cache := w.cache.(pending := [])), w.cache.pending) }

  /** cleanCache; `expired` are the expired keys in the order in which they are visited. */
  function CleanSection(c: Cache, expired: seq<Key>): Sweep {
    if c.closed then Sweep(c, []) else EvictAll(Recheck(Sweep(c, [])), expired)
  }

  /** The section of close; `keys` are the keys in the order in which they are visited. */
  function CloseSection(c: Cache, keys: seq<Key>): Sweep {
    Recheck(EvictAll(Sweep(c.(closed := true), []), keys))
  }

  lemma {:induction false} WithoutAt(s: seq<FileId>, f: FileId, i: nat)
    requires i < |s| && s[i] == f && f !in s[..i]
    ensures Without(s, f) == s[..i] + s[i + 1..]
  {
    if i > 0 {
      assert s[0] in s[..i];
      assert s[1..][..i - 1] == s[..i][1..];
      WithoutAt(s[1..], f, i - 1);
    }
  }

  lemma {:induction false} WithoutNone(s: seq<FileId>, f: FileId)
    requires f !in s
    ensures Without(s, f) == s
  {
    if s != [] { WithoutNone(s[1..], f); }
  }

  // ---- the object

  class CacheManager {
    var files: map<Key, FileId>
    var readers: map<FileId, nat>
    var pendingFiles: seq<FileId>
    var closed: bool

    ghost function View(): Cache
      reads this
    {
      Cache(files, readers, pendingFiles, closed)
    }

    constructor ()
      ensures View() == Cache(map[], map[], [], false)
    {
      files, readers, pendingFiles, closed := map[], map[], [], false;
    }

    method GetFileFromCache(k: Key) returns (f: Option<FileId>)
      modifies this
      ensures (View(), f) == GetSection(old(View()), k)
    {
      f := None;
      if !closed && k in files { f := Some(files[k]); }
      if f.Some? { IncReaders(f.value); }
    }

    method IncReaders(f: FileId)
      modifies this`readers
      ensures View() == AddReader(old(View()), f)
    {
      readers := readers[f := (if f in readers then readers[f] else 0) + 1];
    }

    /** The file to use; if it is another one, f is to be released. */
    method SetFileToCache(k: Key, f: FileId) returns (use: FileId, out: seq<FileId>)
      modifies this
      ensures (Sweep(View(), out), use) == SetSection(old(View()), k, f)
    {
      use, out := f, [];
      if closed {
        IncReaders(f);
        return;
      }
      if k !in files {
        files := files[k := f];
        IncReaders(f);
      } else {
        use, out := files[k], [f];
        IncReaders(use);
      }
    }

    method DecReadersCount(f: FileId) returns (out: seq<FileId>)
      requires Readers(View(), f) > 0
      modifies this
      ensures Sweep(View(), out) == DecSection(old(View()), f)
    {
      out := [];
      readers := readers[f := readers[f] - 1];
      if closed && readers[f] == 0 {
        out := [f];
        RemovePendingFile(f);
      }
    }

    method RemovePendingFile(f: FileId)
      modifies this`pendingFiles
      ensures pendingFiles == Without(old(pendingFiles), f)
    {
      var i := 0;
      while i < |pendingFiles|
        invariant 0 <= i <= |pendingFiles| && pendingFiles == old(pendingFiles) && f !in pendingFiles[..i]
      {
        if pendingFiles[i] == f {
          WithoutAt(pendingFiles, f, i);
          pendingFiles := pendingFiles[..i] + pendingFiles[i + 1..];
          return;
        }
        i := i + 1;
      }
      WithoutNone(pendingFiles, f);
    }

    method AddFileToRelease(out: seq<FileId>, f: FileId) returns (r: seq<FileId>)
      modifies this`pendingFiles
      ensures Sweep(View(), r) == AddFile(Sweep(old(View()), out), f)
    {
      r := out;
      if f in readers && readers[f] > 0 {
        pendingFiles := pendingFiles + [f];
      } else {
        r := r + [f];
      }
    }

    /** The loops of cleanCacheNolock and collectCacheFilesToReleaseNolock. */
    method EvictKeys(out: seq<FileId>, keys: seq<Key>) returns (r: seq<FileId>)
      modifies this`files, this`pendingFiles
      ensures Sweep(View(), r) == EvictAll(Sweep(old(View()), out), keys)
    {
      r := out;
      var i := 0;
      while i < |keys|
        invariant 0 <= i <= |keys| && Sweep(View(), r) == EvictAll(Sweep(old(View()), out), keys[..i])
      {
        var k := keys[i];
        assert keys[..i + 1][..i] == keys[..i];
        if k in files {
          var f := files[k];
          files := files - {k};
          r := AddFileToRelease(r, f);
        }
        i := i + 1;
      }
      assert keys[..|keys|] == keys;
    }

    /** The loop of close over the pending files, which cleanCache writes out with two lists. */
    method RecheckPending(out: seq<FileId>) returns (r: seq<FileId>)
      modifies this`pendingFiles
      ensures Sweep(View(), r) == Recheck(Sweep(old(View()), out))
    {
      r := out;
      var pending := pendingFiles;
      pendingFiles := [];
      var i := 0;
      while i < |pending|
        invariant 0 <= i <= |pending|
        invariant Sweep(View(), r) ==
          AddFiles(Sweep(old(View()), out).(cache := old(View()).(pending := [])), pending[..i])
      {
        assert pending[..i + 1][..i] == pending[..i];
        r := AddFileToRelease(r, pending[i]);
        i := i + 1;
      }
      assert pending[..|pending|] == pending;
    }

    method CleanCache(expired: seq<Key>) returns (out: seq<FileId>)
      modifies this
      ensures Sweep(View(), out) == CleanSection(old(View()), expired)
    {
      if closed { return []; }
      out := RecheckPending([]);
      out := EvictKeys(out, expired);
    }

    method Close(keys: seq<Key>) returns (out: seq<FileId>)
      modifies this
      ensures Sweep(View(), out) == CloseSection(old(View()), keys)
    {
      closed := true;
      out := EvictKeys([], keys);
      out := RecheckPending(out);
    }
  }
}
