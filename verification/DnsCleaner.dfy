/** Who cleans the DNS cache (fasthttp/tcpdialer.go:434-515, 316-320). Dials store entries and
    then make sure that a cleaner owns the cache; the cleaner gives ownership up when it sees no
    entries, looks again, and takes it back. One step is one atomic operation on the flag or the
    map; a Range over the map is many steps, which others interleave with. */
module DnsCleaner {
  import opened Common

  type Key = string
  type Id = nat

  /** `owed` are the keys that have been in the map ever since a Range began and that it has not
      visited: a Range cannot end before it has. */
  datatype Cleaner =
    | Ticking
    | Scanning(owed: set<Key>, hasEntries: bool)
    | Cleared                                      // the flag is down, about to look again
    | Rechecking(owed: set<Key>)
    | Reclaiming
    | Exited

  /** A dial between storing (or finding) an entry and its compare-and-swap. */
  datatype World = World(
    entries: set<Key>,
    cleanerRunning: bool,
    cleaners: map<Id, Cleaner>,
    dials: map<Id, Key>,
    nextId: Id,
    owner: Option<Id>)                             // bookkeeping only

  datatype Step =
    | DialStore(k: Key)                            // getTCPAddrs: resolve and store
    | DialHit(k: Key)                              // getTCPAddrs: the entry was there
    | DialClaim(d: Id)                             // startTCPAddrsClean
    | Delete(k: Key)                               // somebody else flushes an entry
    | Tick(c: Id)
    | Visit(c: Id, k: Key, expired: bool)
    | VisitStale(c: Id)                            // Range shows a mapping that is gone by now
    | ScanEnd(c: Id)
    | RecheckStart(c: Id)
    | RecheckFound(c: Id)
    | RecheckEmpty(c: Id)
    | Reclaim(c: Id)

  predicate Owns(c: Cleaner) { c.Ticking? || c.Scanning? }

  function Set(s: World, c: Id, x: Cleaner): World { s.(cleaners := s.cleaners[c := x]) }

  /** No Range still owes a visit to k. */
  function Forget(x: Cleaner, k: Key): Cleaner {
    match x
    case Scanning(owed, has) => Scanning(owed - {k}, has)
    case Rechecking(owed) => Rechecking(owed - {k})
    case _ => x
  }

  function Remove(s: World, k: Key): World {
    s.(entries := s.entries - {k}, cleaners := map c | c in s.cleaners :: Forget(s.cleaners[c], k))
  }

  function Next(s: World, step: Step): World {
    match step
    case DialStore(k) => s.(entries := s.entries + {k}, dials := s.dials[s.nextId := k], nextId := s.nextId + 1)
    case DialHit(k) => if k in s.entries then s.(dials := s.dials[s.nextId := k], nextId := s.nextId + 1) else s
    case DialClaim(d) =>
      if d !in s.dials then s
      else if s.cleanerRunning then s.(dials := s.dials - {d})
      else s.(dials := s.dials - {d}, cleanerRunning := true, cleaners := s.cleaners[s.nextId := Ticking],
              owner := Some(s.nextId), nextId := s.nextId + 1)
    case Delete(k) => Remove(s, k)
    case Tick(c) => if c in s.cleaners && s.cleaners[c].Ticking? then Set(s, c, Scanning(s.entries, false)) else s
    case Visit(c, k, expired) =>
      if c !in s.cleaners || !s.cleaners[c].Scanning? || k !in s.entries then s
      else if expired then Remove(s, k)
      else Set(s, c, Scanning(s.cleaners[c].owed - {k}, true))
    case VisitStale(c) =>
      if c in s.cleaners && s.cleaners[c].Scanning? then Set(s, c, s.cleaners[c].(hasEntries := true)) else s
    case ScanEnd(c) =>
      if c !in s.cleaners || !s.cleaners[c].Scanning? || s.cleaners[c].owed != {} then s
      else if s.cleaners[c].hasEntries then Set(s, c, Ticking)
      else Set(s.(cleanerRunning := false, owner := None), c, Cleared)
    case RecheckStart(c) => if c in s.cleaners && s.cleaners[c].Cleared? then Set(s, c, Rechecking(s.entries)) else s
    case RecheckFound(c) => if c in s.cleaners && s.cleaners[c].Rechecking? then Set(s, c, Reclaiming) else s
    case RecheckEmpty(c) =>
      if c in s.cleaners && s.cleaners[c].Rechecking? && s.cleaners[c].owed == {} then Set(s, c, Exited) else s
    case Reclaim(c) =>
      if c !in s.cleaners || !s.cleaners[c].Reclaiming? then s
      else if s.cleanerRunning then Set(s, c, Exited)
      else Set(s.(cleanerRunning := true, owner := Some(c)), c, Ticking)
  }

  function Run(s: World, steps: seq<Step>): World {
    if steps == [] then s else Next(Run(s, steps[..|steps| - 1]), steps[|steps| - 1])
  }

  function Initial(): World { World({}, false, map[], map[], 0, None) }

  // ---- what every step keeps

  /** The flag is up exactly when one cleaner owns the cache. */
  ghost predicate OneOwner(s: World) {
    && (s.cleanerRunning <==> s.owner.Some?)
    && (forall c :: c in s.cleaners && Owns(s.cleaners[c]) <==> s.owner == Some(c))
    && (forall c :: c in s.cleaners ==> c < s.nextId)
    && (forall d :: d in s.dials ==> d < s.nextId)
  }

  /** An exiting cleaner will notice k. */
  predicate Notices(x: Cleaner, k: Key) { x.Cleared? || x.Reclaiming? || (x.Rechecking? && k in x.owed) }

  /** The entry k has an owner, or a dial or an exiting cleaner that will see to it. */
  ghost predicate CaredFor(s: World, k: Key) {
    || s.cleanerRunning
    || (exists d :: d in s.dials && s.dials[d] == k)
    || (exists c :: c in s.cleaners && Notices(s.cleaners[c], k))
  }

  ghost predicate Inv(s: World) { OneOwner(s) && (forall k :: k in s.entries ==> CaredFor(s, k)) }

  lemma StepOwner(s: World, step: Step)
    requires OneOwner(s)
    ensures OneOwner(Next(s, step))
  {
  }

  lemma StepCares(s: World, step: Step, k: Key)
    requires OneOwner(s) && (k in s.entries ==> CaredFor(s, k)) && k in Next(s, step).entries
    ensures CaredFor(Next(s, step), k)
  {
    var s1 := Next(s, step);
    if !s1.cleanerRunning {
      if step.DialStore? && step.k == k {
        assert s1.dials[s.nextId] == k;
      } else if step.ScanEnd? && s.cleanerRunning {
        assert Notices(s1.cleaners[step.c], k);
      } else if d :| d in s.dials && s.dials[d] == k {
        assert d in s1.dials && s1.dials[d] == k;
      } else {
        var c :| c in s.cleaners && Notices(s.cleaners[c], k);
        assert c in s1.cleaners && Notices(s1.cleaners[c], k);
      }
    }
  }

  lemma StepKeeps(s: World, step: Step)
    requires Inv(s)
    ensures Inv(Next(s, step))
  {
    hide Next, CaredFor;
    StepOwner(s, step);
    forall k | k in Next(s, step).entries ensures CaredFor(Next(s, step), k) { StepCares(s, step, k); }
  }

  lemma {:induction false} RunKeeps(s: World, steps: seq<Step>)
    requires Inv(s)
    ensures Inv(Run(s, steps))
  {
    hide Inv;
    if steps != [] {
      RunKeeps(s, steps[..|steps| - 1]);
      StepKeeps(Run(s, steps[..|steps| - 1]), steps[|steps| - 1]);
    }
  }

  /** In every run at most one cleaner owns the cache, and one does while the flag is up. */
  lemma AtMostOneOwner(steps: seq<Step>, c: Id, d: Id)
    ensures var s := Run(Initial(), steps);
      && (c in s.cleaners && d in s.cleaners && Owns(s.cleaners[c]) && Owns(s.cleaners[d]) ==> c == d)
      && (s.cleanerRunning <==> exists o :: o in s.cleaners && Owns(s.cleaners[o]))
  {
    RunKeeps(Initial(), steps);
    hide Run;
    var s := Run(Initial(), steps);
    if s.cleanerRunning { assert s.owner.value in s.cleaners && Owns(s.cleaners[s.owner.value]); }
  }

  /** In every run, an entry whose dials have passed their compare-and-swap has an owning
      cleaner once no exiting cleaner is still between lowering the flag and deciding. */
  lemma NoOrphanEntry(steps: seq<Step>, k: Key)
    ensures var s := Run(Initial(), steps);
      k in s.entries && (forall d :: d in s.dials ==> s.dials[d] != k)
      && (forall c :: c in s.cleaners ==>
            !s.cleaners[c].Cleared? && !s.cleaners[c].Rechecking? && !s.cleaners[c].Reclaiming?)
      ==> exists o :: o in s.cleaners && Owns(s.cleaners[o])
  {
    RunKeeps(Initial(), steps);
    AtMostOneOwner(steps, 0, 0);
    hide Run;
  }

  // ---- when a step can be taken

  predicate Enabled(s: World, step: Step) {
    match step
    case DialStore(_) => true
    case DialHit(k) => k in s.entries
    case DialClaim(d) => d in s.dials
    case Delete(k) => k in s.entries || exists c :: c in s.cleaners && Forget(s.cleaners[c], k) != s.cleaners[c]
    case Tick(c) => c in s.cleaners && s.cleaners[c].Ticking?
    case Visit(c, k, expired) =>
      && c in s.cleaners && s.cleaners[c].Scanning? && k in s.entries
      && (expired || !s.cleaners[c].hasEntries || k in s.cleaners[c].owed)
    case VisitStale(c) => c in s.cleaners && s.cleaners[c].Scanning? && !s.cleaners[c].hasEntries
    case ScanEnd(c) => c in s.cleaners && s.cleaners[c].Scanning? && s.cleaners[c].owed == {}
    case RecheckStart(c) => c in s.cleaners && s.cleaners[c].Cleared?
    case RecheckFound(c) => c in s.cleaners && s.cleaners[c].Rechecking?
    case RecheckEmpty(c) => c in s.cleaners && s.cleaners[c].Rechecking? && s.cleaners[c].owed == {}
    case Reclaim(c) => c in s.cleaners && s.cleaners[c].Reclaiming?
  }

  /** A step changes something exactly when it is enabled. */
  lemma EnabledExactly(s: World, step: Step)
    ensures Next(s, step) != s <==> Enabled(s, step)
  {
    match step
    case Delete(k) =>
      if c :| c in s.cleaners && Forget(s.cleaners[c], k) != s.cleaners[c] {
        assert Remove(s, k).cleaners[c] != s.cleaners[c];
      } else {
        assert Remove(s, k).cleaners == s.cleaners;
      }
    case Visit(c, k, expired) =>
      if c in s.cleaners && s.cleaners[c].Scanning? && k in s.entries {
        if expired {
          assert k !in Remove(s, k).entries;
        } else {
          var x := Scanning(s.cleaners[c].owed - {k}, true);
          assert x != s.cleaners[c] <==> !s.cleaners[c].hasEntries || k in s.cleaners[c].owed;
          SetMoves(s, c, x);
        }
      }
    case VisitStale(c) =>
      if c in s.cleaners && s.cleaners[c].Scanning? { SetMoves(s, c, s.cleaners[c].(hasEntries := true)); }
    case _ =>
  }

  lemma SetMoves(s: World, c: Id, x: Cleaner)
    requires c in s.cleaners
    ensures Set(s, c, x) != s <==> x != s.cleaners[c]
  {
    if x == s.cleaners[c] {
      assert s.cleaners[c := x] == s.cleaners;
    } else {
      assert Set(s, c, x).cleaners[c] == x;
    }
  }

  /** A scan that has met every entry goes on ticking if one is left, and gives ownership up otherwise; it takes
      it back exactly when an entry turned up meanwhile and nobody else has it. */
  lemma CleanerDecides(s: World, c: Id)
    requires c in s.cleaners
    ensures s.cleaners[c].Scanning? && s.cleaners[c].owed == {} ==>
      var s1 := Next(s, ScanEnd(c));
      if s.cleaners[c].hasEntries then s1 == s.(cleaners := s.cleaners[c := Ticking])
      else s1.cleaners == s.cleaners[c := Cleared] && !s1.cleanerRunning && s1.entries == s.entries
    ensures s.cleaners[c].Reclaiming? ==>
      var s1 := Next(s, Reclaim(c));
      && s1.cleanerRunning && s1.entries == s.entries
      && s1.cleaners == s.cleaners[c := if s.cleanerRunning then Exited else Ticking]
  {
  }
}
