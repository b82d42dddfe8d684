/** Query arguments (fasthttp/args.go:110-124, 167-183, 509-523, 559-591): printing and parsing
    them, with slots that are reused and hold stale data. */
module QueryArgs {
  import opened Octets

  /** noValue: printed without an equals sign. */
  datatype KV = KV(key: seq<octet>, value: seq<octet>, noValue: bool)

  // ---- what a query string means

  function Find(b: seq<octet>, c: octet): (i: nat)
    ensures i <= |b| && (i < |b| ==> b[i] == c) && forall k :: 0 <= k < i ==> b[k] != c
  {
    if b == [] || b[0] == c then 0 else Find(b[1..], c) + 1
  }

  /** One entry: everything up to the first equals sign is the key. */
  function Entry(e: seq<octet>): KV {
    var i := Find(e, EQ);
    if i == |e| then KV(Decode(e, true), [], true) else KV(Decode(e[..i], true), Decode(e[i + 1..], true), false)
  }

  /** The entries between ampersands. Nothing follows one at the very end. */
  function Entries(b: seq<octet>): seq<KV> {
    if b == [] then []
    else
      var i := Find(b, AMP);
      [Entry(b[..i])] + if i < |b| then Entries(b[i + 1..]) else []
  }

  predicate Filled(e: KV) { e.key != [] || e.value != [] }

  function Dense(s: seq<KV>): seq<KV> {
    if s == [] then [] else (if Filled(s[0]) then [s[0]] else []) + Dense(s[1..])
  }

  function Print1(e: KV): seq<octet> { Quote(e.key, true) + if e.noValue then [] else [EQ] + Quote(e.value, true) }

  /** AppendBytes */
  function Print(s: seq<KV>): seq<octet> {
    if s == [] then [] else Print1(s[0]) + if |s| == 1 then [] else [AMP] + Print(s[1..])
  }

  // ---- reading back what was printed

  predicate Quoted(c: octet) { c != EQ && c != AMP }

  lemma {:induction false} QuoteHasNoMarks(s: seq<octet>)
    ensures forall i :: 0 <= i < |Quote(s, true)| ==> Quoted(Quote(s, true)[i])
  {
    if s != [] {
      QuoteHasNoMarks(s[1..]);
      var q, r := Quote1(s[0], true), Quote(s[1..], true);
      assert forall i :: 0 <= i < |q| ==> Quoted(q[i]);
      assert Quote(s, true) == q + r;
    }
  }

  lemma FindIs(b: seq<octet>, c: octet, i: nat)
    requires i <= |b| && (i < |b| ==> b[i] == c) && forall k :: 0 <= k < i ==> b[k] != c
    ensures Find(b, c) == i
  {
  }

  lemma EntryPrint1(e: KV)
    requires e.noValue ==> e.value == []
    ensures Entry(Print1(e)) == e
    ensures forall k :: 0 <= k < |Print1(e)| ==> Print1(e)[k] != AMP
  {
    hide Quote, Decode;
    var p, k, v := Print1(e), Quote(e.key, true), Quote(e.value, true);
    QuoteHasNoMarks(e.key);
    QuoteHasNoMarks(e.value);
    DecodeQuote(e.key, true);
    DecodeQuote(e.value, true);
    if e.noValue {
      assert p == k;
      FindIs(p, EQ, |p|);
    } else {
      assert p == k + [EQ] + v;
      assert p[..|k|] == k && p[|k| + 1..] == v;
      FindIs(p, EQ, |k|);
    }
  }

  /** Parsing what was printed gives the entries back, those without key and value dropped,
      whatever bytes they hold. */
  lemma {:induction false} PrintRoundTrip(s: seq<KV>)
    requires forall i :: 0 <= i < |s| ==> (s[i].noValue ==> s[i].value == [])
    ensures Dense(Entries(Print(s))) == Dense(s)
  {
    hide Entry, Print1;
    if s != [] {
      var p, rest := Print1(s[0]), s[1..];
      EntryPrint1(s[0]);
      PrintRoundTrip(rest);
      var b := Print(s);
      if |s| == 1 {
        assert b == p;
        if b == [] {
          EmptyEntry(s[0]);
        } else {
          FindIs(b, AMP, |b|);
          assert b[..|b|] == b;
        }
      } else {
        assert b == p + ([AMP] + Print(rest));
        assert b[..|p|] == p && b[|p| + 1..] == Print(rest);
        FindIs(b, AMP, |p|);
        assert Entries(b) == [s[0]] + Entries(Print(rest));
        assert ([s[0]] + Entries(Print(rest)))[1..] == Entries(Print(rest));
      }
    }
  }

  /** Everything before the first equals sign is the key, everything behind it the value. */
  lemma EntrySplits(k: seq<octet>, v: seq<octet>)
    requires Code('=') !in k
    ensures Entry(k + [Code('=')] + v) == KV(Decode(k, true), Decode(v, true), false)
  {
    hide Decode, Find;
    var e := k + [EQ] + v;
    assert e[..|k|] == k && e[|k| + 1..] == v;
    FindIs(e, EQ, |k|);
  }

  /** Without one there is no value, not even an empty one. */
  lemma EntryAlone(k: seq<octet>)
    requires Code('=') !in k
    ensures Entry(k) == KV(Decode(k, true), [], true)
  {
    hide Decode, Find;
    FindIs(k, EQ, |k|);
  }

  /** Entries are what stands between ampersands, in order. */
  lemma EntriesSplit(e: seq<octet>, rest: seq<octet>)
    requires Code('&') !in e
    ensures Entries(e + [Code('&')] + rest) == [Entry(e)] + Entries(rest)
    ensures e != [] ==> Entries(e) == [Entry(e)]
  {
    hide Entry, Find;
    var b := e + [AMP] + rest;
    assert b[..|e|] == e && b[|e| + 1..] == rest;
    FindIs(b, AMP, |e|);
    if e != [] {
      FindIs(e, AMP, |e|);
      assert e[..|e|] == e;
    }
  }

  /** Exactly the entries with neither key nor value are dropped, and the others keep their order. */
  lemma {:induction false} DenseConcat(a: seq<KV>, b: seq<KV>)
    ensures Dense(a + b) == Dense(a) + Dense(b)
  {
    if a == [] {
      assert a + b == b && Dense(a) == [];
    } else {
      var e, rest := a[0], a[1..];
      assert a == [e] + rest && a + b == [e] + (rest + b);
      hide Dense;
      DenseConcat(rest, b);
      DenseCons(e, rest);
      DenseCons(e, rest + b);
      DenseJoin(e, Dense(rest), Dense(b));
    }
  }

  function Kept(e: KV): seq<KV> { if Filled(e) then [e] else [] }

  lemma DenseCons(e: KV, s: seq<KV>)
    ensures Dense([e] + s) == Kept(e) + Dense(s)
  {
    assert ([e] + s)[1..] == s;
  }

  lemma DenseJoin(e: KV, a: seq<KV>, b: seq<KV>)
    ensures Kept(e) + (a + b) == Kept(e) + a + b
  {
  }

  lemma DenseOne(e: KV)
    ensures Dense([e]) == if e.key == [] && e.value == [] then [] else [e]
  {
    assert [e][1..] == [];
  }

  /** An argument is printed as its quoted key, and its quoted value behind an equals sign; arguments
      stand between ampersands. */
  lemma PrintLooks(e: KV, rest: seq<KV>)
    ensures Print([e]) == Quote(e.key, true) + if e.noValue then [] else [Code('=')] + Quote(e.value, true)
    ensures rest != [] ==> Print([e] + rest) == Print([e]) + [Code('&')] + Print(rest)
  {
    hide Quote;
    assert Print([e]) == Print1(e) by { assert Print1(e) + [] == Print1(e); }
    if rest != [] {
      assert ([e] + rest)[1..] == rest;
      assert Print1(e) + ([AMP] + Print(rest)) == Print1(e) + [AMP] + Print(rest);
    }
  }

  lemma EmptyEntry(e: KV)
    requires Print1(e) == [] && Entry(Print1(e)) == e
    ensures !Filled(e)
  {
  }

  // ---- the object

  /** argsScanner */
  class Scanner {
    var b: seq<octet>

    constructor (bytes: seq<octet>)
      ensures b == bytes
    {
      b := bytes;
    }

    /** Overwrites kv with the next entry, whatever it held. */
    method Next(kv: KV) returns (more: bool, kv1: KV)
      modifies this
      ensures more == (old(b) != []) && (!more ==> b == [])
      ensures more ==> Entries(old(b)) == [kv1] + Entries(b) && |b| < |old(b)|
    {
      hide Decode, Entry, Entries, Find;
      kv1 := kv;
      if b == [] { return false, kv1; }
      kv1 := kv1.(noValue := false);
      var isKey, k, i := true, 0, 0;
      while i < |b|
        invariant 0 <= i <= |b| && b == old(b) && !kv1.noValue
        invariant forall j :: 0 <= j < i ==> b[j] != AMP
        invariant isKey ==> forall j :: 0 <= j < i ==> b[j] != EQ
        invariant !isKey ==> 0 < k <= i && b[k - 1] == EQ && kv1.key == Decode(b[..k - 1], true)
        invariant !isKey ==> forall j :: 0 <= j < k - 1 ==> b[j] != EQ
      {
        if b[i] == EQ && isKey {
          isKey := false;
          kv1 := kv1.(key := Decode(b[..i], true));
          k := i + 1;
        } else if b[i] == AMP {
          break;
        }
        i := i + 1;
      }
      FirstEntry(b, i, isKey, k);
      if isKey {
        kv1 := KV(Decode(b[..i], true), [], true);
      } else {
        kv1 := kv1.(value := Decode(b[k..i], true));
      }
      b := if i < |b| then b[i + 1..] else b[|b|..];
      return true, kv1;
    }
  }

  /** The entry whose key ends before k - 1, or that has no equals sign. */
  lemma EntryIs(e: seq<octet>, isKey: bool, k: nat)
    requires isKey ==> forall j :: 0 <= j < |e| ==> e[j] != EQ
    requires !isKey ==> 0 < k <= |e| && e[k - 1] == EQ && forall j :: 0 <= j < k - 1 ==> e[j] != EQ
    ensures isKey ==> Entry(e) == KV(Decode(e, true), [], true)
    ensures !isKey ==> Entry(e) == KV(Decode(e[..k - 1], true), Decode(e[k..], true), false)
  {
    hide Decode;
    FindIs(e, EQ, if isKey then |e| else k - 1);
  }

  lemma EntriesStep(b: seq<octet>)
    requires b != []
    ensures var i := Find(b, AMP); Entries(b) == [Entry(b[..i])] + if i < |b| then Entries(b[i + 1..]) else Entries([])
  {
    hide Entry, Find;
  }

  lemma FirstEntry(b: seq<octet>, i: nat, isKey: bool, k: nat)
    requires b != [] && i <= |b| && (i < |b| ==> b[i] == AMP) && forall j :: 0 <= j < i ==> b[j] != AMP
    requires isKey ==> forall j :: 0 <= j < i ==> b[j] != EQ
    requires !isKey ==> 0 < k <= i && b[k - 1] == EQ && forall j :: 0 <= j < k - 1 ==> b[j] != EQ
    ensures Entries(b) == [Entry(b[..i])] + if i < |b| then Entries(b[i + 1..]) else Entries([])
    ensures isKey ==> Entry(b[..i]) == KV(Decode(b[..i], true), [], true)
    ensures !isKey ==> Entry(b[..i]) == KV(Decode(b[..k - 1], true), Decode(b[k..i], true), false)
  {
    hide Decode, Entry, Find, Entries;
    FindIs(b, AMP, i);
    EntriesStep(b);
    EntryIs(b[..i], isKey, k);
    if !isKey { assert b[..i][..k - 1] == b[..k - 1] && b[..i][k..] == b[k..i]; }
  }

  class Args {
    /** Slots that were allocated once, of which the first n are in use. */
    var slots: seq<KV>
    var n: nat

    ghost predicate Valid()
      reads this
    {
      n <= |slots|
    }

    ghost function Contents(): seq<KV>
      reads this
      requires Valid()
    {
      slots[..n]
    }

    constructor ()
      ensures Valid() && Contents() == []
    {
      slots, n := [], 0;
    }

    /** One more slot, with whatever a former use left in it. */
    method AllocArg()
      requires Valid()
      modifies this
      ensures Valid() && n == old(n) + 1 && slots[..n - 1] == old(Contents())
    {
      if n == |slots| { slots := slots + [KV([], [], false)]; }
      n := n + 1;
    }

    /** What was there before does not show in the result. */
    method ParseBytes(b: seq<octet>)
      requires Valid()
      modifies this
      ensures Valid() && Contents() == Dense(Entries(b))
    {
      hide Entries, Dense;
      n := 0;
      var s := new Scanner(b);
      AllocArg();
      ghost var todo := Entries(b);
      while true
        invariant Valid() && n > 0 && fresh(s) && todo == Entries(s.b)
        invariant Dense(Entries(b)) == slots[..n - 1] + Dense(todo)
        decreases |s.b|
      {
        var more, kv := s.Next(slots[n - 1]);
        if !more { break; }
        DenseStep(todo);
        ghost var done := slots[..n - 1];
        slots := slots[n - 1 := kv];
        assert slots[..n - 1] == done && slots[..n] == done + [kv];
        todo := todo[1..];
        if |kv.key| > 0 || |kv.value| > 0 { AllocArg(); }
      }
      NoEntries(s.b);
      n := n - 1;
    }

    method AppendBytes(dst: seq<octet>) returns (out: seq<octet>)
      requires Valid()
      ensures out == dst + Print(Contents())
    {
      hide Print, Quote;
      out := dst;
      var i := 0;
      assert slots[0..n] == slots[..n];
      while i < n
        invariant 0 <= i <= n && out + Print(slots[i..n]) == dst + Print(Contents())
      {
        PrintStep(slots[i..n]);
        assert slots[i..n][1..] == slots[i + 1..n];
        var kv := slots[i];
        out := QuoteAppend(out, kv.key, true);
        if !kv.noValue {
          out := out + [EQ];
          if |kv.value| > 0 { out := QuoteAppend(out, kv.value, true); }
        }
        if i + 1 < n { out := out + [AMP]; }
        i := i + 1;
      }
      PrintNone(slots[i..n]);
    }
  }

  lemma DenseStep(s: seq<KV>)
    requires s != []
    ensures Dense(s) == (if Filled(s[0]) then [s[0]] else []) + Dense(s[1..])
  {
  }

  lemma NoEntries(b: seq<octet>)
    requires b == []
    ensures Entries(b) == [] && Dense([]) == []
  {
  }

  lemma PrintStep(s: seq<KV>)
    requires s != []
    ensures Print(s) == Print1(s[0]) + (if |s| == 1 then [] else [AMP]) + Print(s[1..])
    ensures Quote([], true) == []
  {
    hide Print1;
    if |s| == 1 {
      PrintNone(s[1..]);
    } else {
      assert Print1(s[0]) + ([AMP] + Print(s[1..])) == Print1(s[0]) + [AMP] + Print(s[1..]);
    }
  }

  lemma PrintNone(s: seq<KV>)
    requires s == []
    ensures Print(s) == []
  {
  }
}
