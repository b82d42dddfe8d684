/** The trailer section of a header (fasthttp/header.go:599-713, 817-934, 1785-1833, 3309-3340).
    Announcing a name moves its values from the header section to the trailer section, dropping
    it moves them back; one name may have storage of its own. */
module Trailers {
  import opened Common
  import opened Swar
  import opened HeaderBlock
  import opened HeaderScanners
  import opened HeaderReads
  import opened TrailerNames
  import HeaderPrint

  type Value = seq<byte>
  datatype KV = KV(key: Name, value: Value)

  const TrailerSetMin: nat := 64
  const COMMA: byte := 44

  // ---- lists of fields

  /** The entries under key, or all others, in order. */
  function Select(s: seq<KV>, key: Name, under: bool): (r: seq<KV>)
    ensures forall e :: e in r <==> e in s && (e.key == key) == under
  {
    if s == [] then []
    else
      var front := Select(s[..|s| - 1], key, under);
      if (s[|s| - 1].key == key) == under then front + [s[|s| - 1]] else front
  }

  lemma {:induction false} SelectSplits(s: seq<KV>, key: Name)
    ensures multiset(Select(s, key, true)) + multiset(Select(s, key, false)) == multiset(s)
  {
    if s != [] {
      SelectSplits(s[..|s| - 1], key);
      assert s == s[..|s| - 1] + [s[|s| - 1]];
    }
  }

  lemma {:induction false} SelectCount(s: seq<KV>, key: Name, under: bool, e: KV)
    ensures multiset(Select(s, key, under))[e] == if (e.key == key) == under then multiset(s)[e] else 0
  {
    if s != [] {
      SelectCount(s[..|s| - 1], key, under, e);
      assert s == s[..|s| - 1] + [s[|s| - 1]];
    }
  }

  lemma SelectSnoc(s: seq<KV>, e: KV, key: Name, under: bool)
    ensures Select(s + [e], key, under) == Select(s, key, under) + if (e.key == key) == under then [e] else []
  {
    assert (s + [e])[..|s|] == s;
  }

  /** What is under one name does not depend on what is under another. */
  lemma {:induction false} SelectOther(s: seq<KV>, key: Name, other: Name)
    requires key != other
    ensures Select(Select(s, other, false), key, true) == Select(s, key, true)
  {
    if s != [] {
      hide Select;
      var front, last := s[..|s| - 1], s[|s| - 1];
      assert s == front + [last];
      SelectOther(front, key, other);
      SelectSnoc(front, last, other, false);
      SelectSnoc(front, last, key, true);
      SelectSnoc(Select(front, other, false), last, key, true);
    }
  }

  lemma {:induction false} SelectConcat(a: seq<KV>, b: seq<KV>, key: Name, under: bool)
    ensures Select(a + b, key, under) == Select(a, key, under) + Select(b, key, under)
    decreases |b|
  {
    if b == [] {
      assert a + b == a;
    } else {
      var front, last := b[..|b| - 1], b[|b| - 1];
      assert b == front + [last] && a + b == (a + front) + [last];
      hide Select;
      SelectConcat(a, front, key, under);
      SelectSnoc(a + front, last, key, under);
      SelectSnoc(front, last, key, under);
    }
  }

  lemma WithoutOne(a: seq<KV>, e: KV, b: seq<KV>, key: Name)
    requires e.key == key && Select(a, key, true) == []
    ensures Select(a + [e] + b, key, true) == [e] + Select(a + b, key, true)
    ensures Select(a + [e] + b, key, false) == Select(a + b, key, false)
  {
    hide Select;
    SelectSnoc(a, e, key, true);
    SelectSnoc(a, e, key, false);
    SelectConcat(a + [e], b, key, true);
    SelectConcat(a + [e], b, key, false);
    SelectConcat(a, b, key, true);
    SelectConcat(a, b, key, false);
  }

  /** Taking out the first entry under a name. */
  lemma SelectWithout(s: seq<KV>, i: nat, key: Name)
    requires i < |s| && s[i].key == key && forall k :: 0 <= k < i ==> s[k].key != key
    ensures Select(s, key, true) == [s[i]] + Select(s[..i] + s[i + 1..], key, true)
    ensures Select(s, key, false) == Select(s[..i] + s[i + 1..], key, false)
  {
    NoneUnder(s[..i], key);
    assert s == s[..i] + [s[i]] + s[i + 1..];
    hide Select;
    WithoutOne(s[..i], s[i], s[i + 1..], key);
  }

  lemma {:induction false} NoneUnder(s: seq<KV>, key: Name)
    requires forall k :: 0 <= k < |s| ==> s[k].key != key
    ensures Select(s, key, true) == []
  {
    if s != [] { NoneUnder(s[..|s| - 1], key); }
  }

  /** a and b hold the same fields under names other than key. */
  ghost predicate SameBut(a: seq<KV>, b: seq<KV>, key: Name) {
    forall e: KV :: e.key != key ==> multiset(a)[e] == multiset(b)[e]
  }

  /** a and b hold the same fields under the given names. */
  ghost predicate SameOn(a: seq<KV>, b: seq<KV>, names: set<Name>) {
    forall e: KV :: e.key in names ==> multiset(a)[e] == multiset(b)[e]
  }

  lemma SelectNext(s: seq<KV>, i: nat, key: Name, under: bool)
    requires i < |s|
    ensures Select(s[..i + 1], key, under) ==
      Select(s[..i], key, under) + if (s[i].key == key) == under then [s[i]] else []
  {
    assert s[..i + 1][..i] == s[..i];
  }

  /** delAllArgsStable: entries are taken out one by one, the others keep their order. */
  method DelAllArgsStable(args: seq<KV>, key: Name) returns (r: seq<KV>)
    ensures r == Select(args, key, false)
  {
    hide Select;
    r := args;
    var i := 0;
    ghost var k, done := 0, [];
    assert args[..0] == [] && Select([], key, false) == [] by { NoneSelected(key); }
    while i < |r|
      invariant 0 <= k <= |args| && done == Select(args[..k], key, false) && i == |done| && r == done + args[k..]
      decreases |args| - k
    {
      SelectNext(args, k, key, false);
      Splice(done, args[k..]);
      assert args[k..][1..] == args[k + 1..];
      if r[i].key == key {
        r := r[..i] + r[i + 1..];
      } else {
        done := done + [r[i]];
        i := i + 1;
      }
      k := k + 1;
    }
    assert args[..k] == args;
  }

  lemma NoneSelected(key: Name)
    ensures Select([], key, false) == []
  {
  }

  lemma Splice(a: seq<KV>, b: seq<KV>)
    requires b != []
    ensures (a + b)[|a|] == b[0] && (a + b)[..|a|] + (a + b)[|a| + 1..] == a + b[1..] && a + b == a + [b[0]] + b[1..]
  {
  }

  /** moveArgs */
  method MoveArgs(src: seq<KV>, dst: seq<KV>, key: Name) returns (src1: seq<KV>, dst1: seq<KV>)
    ensures src1 == Select(src, key, false) && dst1 == dst + Select(src, key, true)
    ensures multiset(src1) + multiset(dst1) == multiset(src) + multiset(dst)
    ensures forall e :: e in src1 <==> e in src && e.key != key
    ensures forall e :: e in dst1 <==> e in dst || (e in src && e.key == key)
    ensures SameBut(src1, src, key) && SameBut(dst1, dst, key)
  {
    dst1 := dst;
    for i := 0 to |src|
      invariant dst1 == dst + Select(src[..i], key, true)
    {
      SelectNext(src, i, key, true);
      if src[i].key == key { dst1 := dst1 + [src[i]]; }
    }
    assert src[..|src|] == src;
    src1 := DelAllArgsStable(src, key);
    SelectSplits(src, key);
    forall e: KV | e.key != key ensures multiset(src1)[e] == multiset(src)[e] && multiset(dst1)[e] == multiset(dst)[e] {
      SelectCount(src, key, false, e);
      SelectCount(src, key, true, e);
    }
  }

  // ---- names listed in a Trailer field

  function Comma(s: Name): (i: nat)
    ensures i <= |s| && (i < |s| ==> s[i] == COMMA) && forall k :: 0 <= k < i ==> s[k] != COMMA
  {
    if s == [] || s[0] == COMMA then 0 else Comma(s[1..]) + 1
  }

  /** The items of a comma-separated list. Nothing follows a comma at the very end. */
  function Items(s: Name): seq<Name> {
    if s == [] then []
    else
      var i := Comma(s);
      [s[..i]] + if i + 1 < |s| then Items(s[i + 1..]) else []
  }

  /** The loop over the list, as addTrailersIndexed and setTrailerBytes write it. */
  method SplitItems(list: Name) returns (items: seq<Name>)
    ensures items == Items(list)
  {
    hide Items, Comma;
    items := [];
    var rest, i := list, -1;
    ghost var todo := Items(list);
    NothingJoined();
    assert list[0..] == list;
    while i + 1 < |rest|
      invariant -1 <= i <= |rest| && todo == (if i + 1 < |rest| then Items(rest[i + 1..]) else [])
      invariant Items(list) == items + todo
      decreases |rest| - i
    {
      rest := rest[i + 1..];
      i := Comma(rest);
      FirstItem(rest);
      items := items + [rest[..i]];
      todo := todo[1..];
    }
  }

  lemma NothingJoined()
    ensures Items([]) == []
  {
  }

  lemma FirstItem(s: Name)
    requires s != []
    ensures Items(s) == [s[..Comma(s)]] + if Comma(s) + 1 < |s| then Items(s[Comma(s) + 1..]) else []
  {
  }

  function ListOf(items: seq<Name>): Name {
    if items == [] then [] else if |items| == 1 then items[0] else items[0] + [COMMA] + ListOf(items[1..])
  }

  /** A list of names reads back, unless its last name is empty. */
  lemma {:induction false} ItemsRoundTrip(items: seq<Name>)
    requires (forall x :: x in items ==> COMMA !in x) && (items == [] || items[|items| - 1] != [])
    ensures Items(ListOf(items)) == items
  {
    if items != [] {
      hide Items, Comma;
      var s, x := ListOf(items), items[0];
      assert COMMA !in x;
      if |items| == 1 {
        CommaIs(s, |s|);
        ListSome(items);
        FirstItem(s);
        assert s[..|s|] == s && items == [s];
      } else {
        var rest := items[1..];
        assert s == x + [COMMA] + ListOf(rest);
        hide ListOf;
        assert s[|x|] == COMMA && s[..|x|] == x && s[|x| + 1..] == ListOf(rest);
        CommaIs(s, |x|);
        ItemsRoundTrip(rest);
        ListSome(rest);
        FirstItem(s);
        assert items == [x] + rest;
      }
    } else {
      NothingJoined();
    }
  }

  /** A comma at the very end adds no item; anywhere else an empty item stands where nothing is written. */
  lemma {:induction false} TrailingComma(items: seq<Name>)
    requires items != [] && forall x :: x in items ==> COMMA !in x
    ensures Items(ListOf(items) + [COMMA]) == items
  {
    hide Items, Comma;
    var s, x := ListOf(items) + [COMMA], items[0];
    assert COMMA !in x;
    if |items| == 1 {
      assert s[..|x|] == x;
      CommaIs(s, |x|);
      FirstItem(s);
      assert items == [x];
    } else {
      var rest := items[1..];
      assert s == x + [COMMA] + (ListOf(rest) + [COMMA]);
      hide ListOf;
      assert s[..|x|] == x && s[|x| + 1..] == ListOf(rest) + [COMMA];
      CommaIs(s, |x|);
      FirstItem(s);
      TrailingComma(rest);
      assert items == [x] + rest;
    }
  }

  lemma CommaIs(s: Name, i: nat)
    requires i <= |s| && COMMA !in s[..i] && (i < |s| ==> s[i] == COMMA)
    ensures Comma(s) == i
  {
    forall k | 0 <= k < i ensures s[k] != COMMA { assert s[..i][k] == s[k]; }
  }

  lemma ListSome(items: seq<Name>)
    requires items != [] && items[|items| - 1] != []
    ensures ListOf(items) != []
  {
  }

  /** How an item becomes a name: None if it is malformed or forbidden in trailers. */
  type Reading = Name -> Option<Name>

  ghost function Named(items: seq<Name>, read: Reading): set<Name> {
    set x | x in items && read(x).Some? :: read(x).value
  }

  lemma NamedNext(items: seq<Name>, i: nat, read: Reading)
    requires i < |items|
    ensures Named(items[..i + 1], read) ==
      Named(items[..i], read) + (if read(items[i]).Some? then {read(items[i]).value} else {})
    ensures Rejects(items[..i + 1], read) == (Rejects(items[..i], read) || read(items[i]).None?)
  {
    assert items[..i + 1] == items[..i] + [items[i]];
    assert forall k :: 0 <= k < i ==> items[..i + 1][k] == items[..i][k];
    assert items[..i + 1][i] == items[i];
  }

  // ---- the header

  ghost function FieldsOf(h: seq<KV>, trailerH: seq<KV>, slot: multiset<KV>): multiset<KV> {
    multiset(h) + multiset(trailerH) + slot
  }

  lemma SameFields(a: seq<KV>, b: seq<KV>, c: seq<KV>, d: seq<KV>, slot: multiset<KV>)
    requires multiset(a) + multiset(b) == multiset(c) + multiset(d) ||
      multiset(b) + multiset(a) == multiset(d) + multiset(c)
    ensures FieldsOf(a, b, slot) == FieldsOf(c, d, slot)
  {
    assert multiset(a) + multiset(b) == multiset(b) + multiset(a);
    assert multiset(c) + multiset(d) == multiset(d) + multiset(c);
  }

  lemma AllInHeader(a: seq<KV>, b: seq<KV>, slot: multiset<KV>)
    ensures FieldsOf(a + b, [], slot) == FieldsOf(a, b, slot)
  {
    assert multiset(a + b) == multiset(a) + multiset(b);
  }

  ghost function KeysOf(fields: seq<KV>): set<Name> { set e | e in fields :: e.key }

  lemma NoKeys()
    ensures KeysOf([]) == {}
  {
  }

  ghost function Slot(name: Option<Name>, value: Value, isSet: bool): multiset<KV> {
    if name.Some? && isSet then multiset{KV(name.value, value)} else multiset{}
  }

  class Header {
    /** The header section, the trailer section and the announced names. */
    var h: seq<KV>
    var trailerH: seq<KV>
    var trailer: seq<Name>
    /** The name with storage of its own, if any: Server or User-Agent. */
    const dedicated: Option<Name>
    var slot: Value
    var slotSet: bool
    /** The header block is out already. */
    var written: bool

    ghost function Announced(): set<Name>
      reads this
    {
      Elems(trailer)
    }

    /** Every field, in whichever section it is. */
    ghost function Fields(): multiset<KV>
      reads this
    {
      FieldsOf(h, trailerH, Slot(dedicated, slot, slotSet))
    }

    /** The announced set is a set, and what is in the trailer section is announced. */
    ghost predicate Valid()
      reads this
    {
      Distinct(trailer) && (forall e :: e in trailerH ==> e.key in trailer)
    }

    constructor (name: Option<Name>)
      ensures Valid() && Fields() == multiset{} && trailer == [] && dedicated == name
    {
      dedicated := name;
      h, trailerH, trailer, slot, slotSet, written := [], [], [], [], false, false;
    }

    method IsTrailerKey(key: Name) returns (yes: bool)
      ensures yes == (key in trailer)
    {
      for i := 0 to |trailer|
        invariant key !in trailer[..i]
      {
        if trailer[i] == key { return true; }
      }
      return false;
    }

    /** trailerSet.add: a scan while the set is small, and an index of it from then on. */
    method AddName(key: Name, names: Option<set<Name>>) returns (fresh1: bool, names1: Option<set<Name>>)
      requires Distinct(trailer) && (names.Some? ==> names.value == Announced())
      modifies this`trailer
      ensures Distinct(trailer) && (names1.Some? ==> names1.value == Announced())
      ensures fresh1 == (key !in old(trailer))
      ensures trailer == if fresh1 then old(trailer) + [key] else old(trailer)
    {
      names1 := names;
      if names1.None? {
        if |trailer| < TrailerSetMin {
          var known := IsTrailerKey(key);
          if !known { trailer := trailer + [key]; }
          return !known, names1;
        }
        var index := {};
        for i := 0 to |trailer|
          invariant index == Elems(trailer[..i])
        {
          assert trailer[..i + 1] == trailer[..i] + [trailer[i]];
          index := index + {trailer[i]};
        }
        assert trailer[..|trailer|] == trailer;
        names1 := Some(index);
      }
      if key in names1.value { return false, names1; }
      trailer := trailer + [key];
      names1 := Some(names1.value + {key});
      return true, names1;
    }

    /** migrateTrailer: a default, which nobody set, stays. */
    method MigrateTrailer()
      requires Valid() && dedicated.Some? && dedicated.value in trailer
      modifies this`trailerH, this`slot, this`slotSet
      ensures Valid() && Fields() == old(Fields()) && !slotSet
      ensures trailerH == old(trailerH) + if old(slotSet) then [KV(dedicated.value, old(slot))] else []
      ensures SameBut(trailerH, old(trailerH), dedicated.value)
    {
      if !slotSet { return; }
      trailerH := trailerH + [KV(dedicated.value, slot)];
      slot, slotSet := [], false;
    }

    /** The values of a newly announced name follow it. */
    method Follow(key: Name)
      requires Valid() && key in trailer
      modifies this`h, this`trailerH, this`slot, this`slotSet
      ensures Valid() && Fields() == old(Fields())
      ensures h == Select(old(h), key, false) && (dedicated == Some(key) ==> !slotSet)
      ensures dedicated != Some(key) ==> slot == old(slot) && slotSet == old(slotSet)
      ensures trailerH == old(trailerH) + (if dedicated == Some(key) && old(slotSet) then [KV(key, old(slot))] else [])
                          + Select(old(h), key, true)
      ensures SameBut(trailerH, old(trailerH), key)
    {
      hide Select, Distinct, FieldsOf, Slot;
      assert trailerH + [] == trailerH;
      if dedicated == Some(key) { MigrateTrailer(); }
      var src, dst := MoveArgs(h, trailerH, key);
      SameFields(h, trailerH, src, dst, Slot(dedicated, slot, slotSet));
      h, trailerH := src, dst;
    }

    /** One listed name. */
    method AddOne(key: Name, migrate: bool, index: Option<set<Name>>) returns (index1: Option<set<Name>>)
      requires Valid() && (index.Some? ==> index.value == Announced())
      modifies this`h, this`trailerH, this`slot, this`slotSet, this`trailer
      ensures Valid() && (index1.Some? ==> index1.value == Announced())
      ensures Announced() == old(Announced()) + {key} && old(trailer) <= trailer
      ensures Fields() == old(Fields())
      ensures migrate && !written && key !in old(trailer) ==>
        h == Select(old(h), key, false) && (dedicated == Some(key) ==> !slotSet)
      ensures !migrate || written || key in old(trailer) ==> h == old(h) && trailerH == old(trailerH)
      ensures dedicated != Some(key) || key in old(trailer) ==> slotSet == old(slotSet) && slot == old(slot)
      ensures SameOn(trailerH, old(trailerH), old(Announced()))
    {
      hide Select, Distinct, FieldsOf, Slot;
      var isNew;
      isNew, index1 := AddName(key, index);
      if isNew && migrate && !written { Follow(key); }
    }

    /** addTrailersIndexed. The announced set grows by the names listed, an item that cannot be a
        trailer is an error, and no field is lost. With `migrate`, unless the header block is
        out, no new name keeps a value in the header section. */
    method AddTrailers(items: seq<Name>, read: Reading, migrate: bool, index: Option<set<Name>>)
      returns (bad: bool, index1: Option<set<Name>>)
      requires Valid() && (index.Some? ==> index.value == Announced())
      modifies this`h, this`trailerH, this`slot, this`slotSet, this`trailer
      ensures Valid() && (index1.Some? ==> index1.value == Announced())
      ensures Announced() == old(Announced()) + Named(items, read) && old(trailer) <= trailer
      ensures Fields() == old(Fields())
      ensures bad == Rejects(items, read)
      ensures migrate && !written ==> Upfront(old(Announced()))
      ensures !migrate || written ==> h == old(h) && trailerH == old(trailerH)
      ensures SameOn(trailerH, old(trailerH), old(Announced()))
      ensures dedicated.Some? && (dedicated.value in Announced() ==> dedicated.value in old(Announced())) ==>
        slotSet == old(slotSet) && slot == old(slot)
    {
      hide Rejects, Named, FieldsOf, Slot, Select, Distinct;
      bad, index1 := false, index;
      NoItems(read);
      assert items[..0] == [];
      for i := 0 to |items|
        invariant Valid() && (index1.Some? ==> index1.value == Announced())
        invariant Announced() == old(Announced()) + Named(items[..i], read) && old(trailer) <= trailer
        invariant Fields() == old(Fields())
        invariant bad == Rejects(items[..i], read)
        invariant migrate && !written ==> Upfront(old(Announced()))
        invariant !migrate || written ==> h == old(h) && trailerH == old(trailerH)
        invariant SameOn(trailerH, old(trailerH), old(Announced()))
        invariant dedicated.Some? && (dedicated.value in Announced() ==> dedicated.value in old(Announced())) ==>
          slotSet == old(slotSet) && slot == old(slot)
      {
        NamedNext(items, i, read);
        var key := read(items[i]);
        if key.None? {
          bad := true;
        } else {
          index1 := AddOne(key.value, migrate, index1);
        }
      }
      assert items[..|items|] == items;
    }

    /** A name announced now that was not announced before has no value in the header section. */
    ghost predicate Upfront(before: set<Name>)
      reads this
    {
      && (forall e :: e in h ==> e.key in before || e.key !in Announced())
      && (dedicated.Some? && dedicated.value in Announced() && dedicated.value !in before ==> !slotSet)
    }

    /** The values of the name with storage of its own that are in the trailer section. */
    ghost function Own(): seq<KV>
      requires dedicated.Some?
      reads this
    {
      Select(trailerH, dedicated.value, true)
    }

    /** The storage is free and the first of these values can go there. */
    ghost predicate CanRestore()
      requires dedicated.Some?
      reads this
    {
      !slotSet && slot == [] && Own() != [] && Own()[0].value != []
    }

    /** restoreTrailer: the first value goes back to its own storage, if that is free and the
        value is not empty; otherwise nothing happens. */
    method RestoreTrailer()
      requires Valid() && dedicated.Some?
      modifies this`trailerH, this`slot, this`slotSet
      ensures Valid() && Fields() == old(Fields())
      ensures forall e :: e in trailerH ==> e in old(trailerH)
      ensures SameBut(trailerH, old(trailerH), dedicated.value)
      ensures old(CanRestore()) ==> slotSet && slot == old(Own())[0].value && Own() == old(Own())[1..]
      ensures Select(trailerH, dedicated.value, false) == Select(old(trailerH), dedicated.value, false)
      ensures !old(CanRestore()) ==> trailerH == old(trailerH) && slot == old(slot) && slotSet == old(slotSet)
    {
      hide Select;
      if slotSet || slot != [] { return; }
      var i := 0;
      while i < |trailerH|
        invariant 0 <= i <= |trailerH| && trailerH == old(trailerH) && slot == old(slot) && slotSet == old(slotSet)
        invariant forall k :: 0 <= k < i ==> trailerH[k].key != dedicated.value
      {
        if trailerH[i].key == dedicated.value {
          SelectWithout(trailerH, i, dedicated.value);
          if trailerH[i].value != [] {
            ghost var was := trailerH;
            slot, slotSet := trailerH[i].value, true;
            trailerH := trailerH[..i] + trailerH[i + 1..];
            assert was == was[..i] + [was[i]] + was[i + 1..];
          }
          return;
        }
        i := i + 1;
      }
      NoneUnder(trailerH, dedicated.value);
    }

    /** A dropped name: its values return to the header section. */
    method DropName(name: Name)
      requires Valid()
      modifies this`h, this`trailerH, this`slot, this`slotSet
      ensures Valid() && Fields() == old(Fields())
      ensures forall e :: e in trailerH ==> e in old(trailerH) && e.key != name
      ensures SameBut(trailerH, old(trailerH), name)
      ensures forall k :: k != name ==> Select(trailerH, k, true) == Select(old(trailerH), k, true)
      ensures dedicated == Some(name) && old(CanRestore()) ==>
        slotSet && slot == old(Own())[0].value && h == old(h) + old(Own())[1..]
      ensures dedicated != Some(name) || !old(CanRestore()) ==>
        slotSet == old(slotSet) && slot == old(slot) && h == old(h) + Select(old(trailerH), name, true)
    {
      hide Select, Distinct, FieldsOf, Slot;
      forall k | k != name ensures Select(trailerH, k, true) == Select(Select(trailerH, name, false), k, true) {
        SelectOther(trailerH, k, name);
      }
      if dedicated == Some(name) { RestoreTrailer(); }
      forall k | k != name ensures Select(Select(trailerH, name, false), k, true) == Select(trailerH, k, true) {
        SelectOther(trailerH, k, name);
      }
      var src, dst := MoveArgs(trailerH, h, name);
      SameFields(h, trailerH, dst, src, Slot(dedicated, slot, slotSet));
      trailerH, h := src, dst;
    }

    /** The listed names that are announced already move to the front of the set. */
    method KeepNames(items: seq<Name>, read: Reading) returns (kept: nat)
      requires Distinct(trailer)
      modifies this`trailer
      ensures Distinct(trailer) && Announced() == old(Announced()) && kept <= |trailer|
      ensures Elems(trailer[..kept]) == Named(items, read) * Announced()
      ensures forall x :: x in trailer <==> x in old(trailer)
    {
      hide Named, Distinct, Rejects;
      kept := 0;
      NoItems(read);
      assert items[..0] == [];
      for i := 0 to |items|
        invariant Distinct(trailer) && Announced() == old(Announced()) && 0 <= kept <= |trailer|
        invariant Elems(trailer[..kept]) == Named(items[..i], read) * Announced()
      {
        NamedNext(items, i, read);
        var key := read(items[i]);
        if key.Some? { kept := KeepName(key.value, kept); }
      }
      assert items[..|items|] == items;
      assert forall x :: x in trailer <==> x in Announced();
    }

    method KeepName(key: Name, kept: nat) returns (kept1: nat)
      requires Distinct(trailer) && kept <= |trailer|
      modifies this`trailer
      ensures Distinct(trailer) && Announced() == old(Announced()) && kept1 <= |trailer|
      ensures Elems(trailer[..kept1]) == old(Elems(trailer[..kept])) + ({key} * Announced())
    {
      var j := kept;
      while j < |trailer|
        invariant kept <= j <= |trailer| && trailer == old(trailer) && key !in trailer[kept..j]
      {
        if trailer[j] == key {
          SwapNames(trailer, kept, j);
          trailer := trailer[kept := trailer[j]][j := trailer[kept]];
          assert trailer[..kept + 1] == old(trailer)[..kept] + [key];
          return kept + 1;
        }
        j := j + 1;
      }
      assert trailer == trailer[..kept] + trailer[kept..j];
      return kept;
    }

    /** setTrailerBytes: afterwards exactly the listed names are announced, no field is lost, and
        names that were announced before keep their values in the trailer section. */
    method SetTrailers(items: seq<Name>, read: Reading) returns (bad: bool)
      requires Valid()
      modifies this`h, this`trailerH, this`slot, this`slotSet, this`trailer
      ensures Valid() && Announced() == Named(items, read) && Fields() == old(Fields())
      ensures bad == Rejects(items, read)
      ensures SameOn(trailerH, old(trailerH), Named(items, read) * old(Announced()))
      ensures dedicated.Some? && old(CanRestore()) && dedicated.value in old(Announced()) - Named(items, read) ==>
        slotSet && slot == old(Own())[0].value
      ensures dedicated.Some? && (dedicated.value in Named(items, read) <==> dedicated.value in old(Announced())) ==>
        slotSet == old(slotSet) && slot == old(slot)
    {
      hide Named, Rejects, FieldsOf, Slot, Distinct, SameOn, SameBut, Select;
      var index;
      if |trailer| == 0 {
        ghost var was := trailerH;
        bad, index := AddTrailers(items, read, true, None);
        NoNames(trailerH, was, Named(items, read) * old(Announced()));
        return;
      }
      var kept := KeepNames(items, read);
      ghost var names := trailer;
      KeptOnce(trailer, kept);
      DropNames(kept);
      trailer := trailer[..kept];
      ghost var mid := trailerH;
      bad, index := AddTrailers(items, read, true, None);
      SameTrans(trailerH, mid, old(trailerH), Elems(names[..kept]));
    }

    /** The names from `kept` on are dropped, and forgotten right after. */
    method DropNames(kept: nat)
      requires Valid() && kept <= |trailer|
      modifies this`h, this`trailerH, this`slot, this`slotSet
      ensures Distinct(trailer[..kept]) && (forall e :: e in trailerH ==> e.key in trailer[..kept])
      ensures Fields() == old(Fields()) && SameOn(trailerH, old(trailerH), Elems(trailer[..kept]))
      ensures dedicated.Some? && dedicated.value !in trailer[kept..] ==> slot == old(slot) && slotSet == old(slotSet)
      ensures dedicated.Some? && dedicated.value in trailer[kept..] && old(CanRestore()) ==>
        slotSet && slot == old(Own())[0].value
    {
      hide FieldsOf, Slot, Distinct, SameOn, SameBut, Select;
      SameRefl(trailerH, Elems(trailer[..kept]));
      for j := kept to |trailer|
        invariant Valid() && Fields() == old(Fields())
        invariant forall e :: e in trailerH ==> e.key !in trailer[kept..j]
        invariant SameOn(trailerH, old(trailerH), Elems(trailer[..kept]))
        invariant dedicated.Some? && dedicated.value !in trailer[kept..j] ==>
          Own() == old(Own()) && slot == old(slot) && slotSet == old(slotSet)
        invariant dedicated.Some? && dedicated.value in trailer[kept..j] && old(CanRestore()) ==>
          slotSet && slot == old(Own())[0].value
      {
        assert trailer[kept..j + 1] == trailer[kept..j] + [trailer[j]];
        ghost var was := trailerH;
        OnceDropped(trailer, kept, j);
        DropName(trailer[j]);
        NotKept(trailer, kept, j);
        SameOnBut(trailerH, was, old(trailerH), trailer[j], Elems(trailer[..kept]));
      }
      assert trailer == trailer[..kept] + trailer[kept..];
      DistinctPrefix(trailer, kept);
    }

    /** unannounceTrailers */
    method Unannounce()
      modifies this`h, this`trailerH, this`trailer
      ensures Valid() && Announced() == {} && Fields() == old(Fields())
      ensures h == old(h) + old(trailerH) && trailerH == []
    {
      ghost var n := |trailerH|;
      for i := 0 to |trailerH|
        invariant trailerH == old(trailerH) && h == old(h) + trailerH[..i]
      {
        h := h + [trailerH[i]];
      }
      assert trailerH[..n] == trailerH;
      AllInHeader(old(h), old(trailerH), Slot(dedicated, slot, slotSet));
      hide FieldsOf, Slot;
      trailerH, trailer := [], [];
    }

    /** Deletes a field from the header section. */
    method DropField(field: Name)
      requires Valid()
      modifies this`h
      ensures Valid() && forall e :: e in h ==> e.key != field
      ensures forall e: KV :: e.key != field ==> Fields()[e] == old(Fields())[e]
    {
      SelectSplits(h, field);
      ghost var gone := Select(h, field, true);
      assert forall e: KV :: e.key != field ==> multiset(gone)[e] == 0;
      h := DelAllArgsStable(h, field);
    }

    /** del of the Trailer field of a request: no other field is lost. */
    method DelTrailer(field: Name)
      requires Valid()
      modifies this`h, this`trailerH, this`trailer, this`slot, this`slotSet
      ensures Valid() && Announced() == {} && trailerH == []
      ensures forall e: KV :: e.key != field ==> Fields()[e] == old(Fields())[e]
      ensures forall e :: e in h ==> e.key != field
      ensures dedicated.Some? && old(CanRestore()) ==> slotSet && slot == old(Own())[0].value
      ensures dedicated.None? || !old(CanRestore()) ==> slotSet == old(slotSet) && slot == old(slot)
    {
      hide FieldsOf, Slot, Distinct;
      if dedicated.Some? { RestoreTrailer(); }
      DropField(field);
      Unannounce();
      DropField(field);
    }

    /** A field of the trailer section has arrived: it is refused, or stored and announced. */
    method StoreArrived(f: Field, disable: bool, index: Option<set<Name>>)
      returns (error: Option<TrailerError>, index1: Option<set<Name>>)
      requires Valid() && (index.Some? ==> index.value == Announced())
      modifies this`trailerH, this`trailer
      ensures Valid() && old(trailer) <= trailer && (index1.Some? ==> index1.value == Announced())
      ensures error == match Arrived(f, disable) { case Err(e) => Some(e) case Ok(_) => None }
      ensures error.Some? ==> trailerH == old(trailerH)
      ensures error.None? ==> var es := Arrived(f, disable).value;
        trailerH == old(trailerH) + es && Announced() == old(Announced()) + KeysOf(es)
    {
      hide Distinct, TrimRight, IsBadTrailer, Canon;
      index1 := index;
      var key := TrimRight(f.key);
      if key == [] { return None, index1; }
      if IsBadTrailer(key) { return Some(ForbiddenKey(key)), index1; }
      if !f.valueValid { return Some(BadValue(f.value)), index1; }
      var e := KV(if disable || f.keyHasSpace then key else Canon(key), f.value);
      trailerH := trailerH + [e];
      var isNew;
      isNew, index1 := AddName(e.key, index);
      return None, index1;
    }

    /** `got` has come to the trailer section since it held h0 and the names t0 were announced. */
    ghost predicate Stores(h0: seq<KV>, t0: seq<Name>, got: seq<KV>, index: Option<set<Name>>)
      reads this
    {
      && Valid() && (index.Some? ==> index.value == Announced())
      && trailerH == h0 + got && t0 <= trailer && Announced() == Elems(t0) + KeysOf(got)
    }

    method StoreNext(f: Field, disable: bool, index: Option<set<Name>>,
                     ghost h0: seq<KV>, ghost t0: seq<Name>, ghost got: seq<KV>)
      returns (error: Option<TrailerError>, index1: Option<set<Name>>)
      requires Stores(h0, t0, got, index)
      modifies this`trailerH, this`trailer
      ensures error == match Arrived(f, disable) { case Err(e) => Some(e) case Ok(_) => None }
      ensures error.None? ==> Stores(h0, t0, got + Arrived(f, disable).value, index1)
      ensures Valid() && h0 <= trailerH && t0 <= trailer
    {
      hide Arrived, Distinct, KeysOf;
      error, index1 := StoreArrived(f, disable, index);
      if error.None? {
        ghost var es := Arrived(f, disable).value;
        KeysAppend(got, es);
        assert h0 + got + es == h0 + (got + es);
      }
    }

    /** parseTrailer: the fields of the section in b are stored and announced as they arrive. The
        outcome is that of the bytes as they came, and an attempt that has to wait has not changed
        them. */
    method ParseTrailer(b: array<byte>, disable: bool) returns (p: Parsed<seq<KV>, TrailerError>)
      requires Valid()
      modifies this`trailerH, this`trailer, b
      ensures Valid() && old(trailerH) <= trailerH && old(trailer) <= trailer
      ensures p == TrailerSection(old(b[..]), disable)
      ensures p.Done? ==> trailerH == old(trailerH) + p.state && Announced() == old(Announced()) + KeysOf(p.state)
      ensures p.Done? ==> p.n <= b.Length && b[p.n..] == old(b[p.n..])
      ensures p.Wait? ==> b[..] == old(b[..])
    {
      hide NextAt, StartAt, Complete, InBlock, TermAt, Blank, Distinct, KeysOf, Arrived, Section, Elems;
      var s := new HeaderScanner(b, false);
      var committed := |trailerH|;
      var index: Option<set<Name>> := None;
      ghost var wire, got := b[..], [];
      NoKeys();
      assert trailerH + got == trailerH;
      while true
        invariant s.b == b && s.wire == wire && fresh(s) && s.Ready() && s.err == NoErr
        invariant Stores(old(trailerH), old(trailer), got, index)
        invariant Section(wire, s.r, s.initialized, got, disable) == TrailerSection(wire, disable)
        decreases b.Length - s.r, !s.initialized
      {
        ghost var n := if s.initialized then NextAt(wire, s.r) else StartAt(wire);
        if n == More { Undecided(s); }
        SectionStep(wire, s.r, s.initialized, got, disable);
        var more := s.Next();
        if !more {
          match s.err {
            case NeedMore => return Wait;
            case Bad(e) => return Fail(Malformed(e));
            case NoErr => return Done(trailerH[committed..], s.r);
          }
        }
        var f := Field(b[s.keyFrom..s.keyTo], b[s.valueFrom..s.valueTo], s.keyHasSpace, s.valueValid);
        var error;
        error, index := StoreNext(f, disable, index, old(trailerH), old(trailer), got);
        if error.Some? { return Fail(Rejected(error.value)); }
        got := got + Arrived(f, disable).value;
      }
    }

    /** tryReadTrailer, with buf buffered, where `ended` tells that the connection ended before
        another byte came. An attempt that does not store the section leaves no trace of it. */
    method TryReadTrailer(buf: seq<byte>, disable: bool, ended: bool) returns (res: TrailerRead, left: seq<byte>)
      requires Valid()
      modifies this`trailerH, this`trailer
      ensures Valid() && res == TrailerOutcome(TrailerSection(buf, disable), ended)
      ensures !res.SectionRead? ==> trailerH == old(trailerH) && trailer == old(trailer)
      ensures res.SectionRead? ==>
        trailerH == old(trailerH) + res.fields && Announced() == old(Announced()) + KeysOf(res.fields)
      ensures res.SectionRead? ==> res.n <= |buf| && left == buf[res.n..]
      ensures !res.SectionRead? ==> |left| == |buf|
      ensures TrailerSection(buf, disable).Wait? ==> left == buf
    {
      hide TrailerSection, KeysOf, Distinct;
      if ended && |buf| == 0 {
        NoTrailerYet(disable);
        return EndOfFile, buf;
      }
      var b := new byte[|buf|](i requires 0 <= i < |buf| => buf[i]);
      assert b[..] == buf;
      var committed, committedKeys := |trailerH|, |trailer|;
      var p := ParseTrailer(b, disable);
      match p {
        case Done(fields, n) => return SectionRead(fields, n), b[n..];
        case _ =>
      }
      trailerH, trailer := trailerH[..committed], trailer[..committedKeys];
      assert trailerH == old(trailerH) && trailer == old(trailer);
      if ended { return EndOfFile, b[..]; }
      return if p.Wait? then SectionOpen else SectionBad(p.error), b[..];
    }

    /** ReadTrailer over the bytes of a connection as they arrive, one chunk for each attempt, up to
        its end. Whatever the chunks, the outcome is that of all bytes together, every field is
        stored once, and the bytes left are those of the wire; if the connection ends inside the
        section, that is all of them. */
    method ReadTrailer(chunks: seq<seq<byte>>, disable: bool) returns (res: TrailerRead, left: seq<byte>)
      requires Valid()
      modifies this`trailerH, this`trailer
      ensures Valid() && res == AtEnd(TrailerSection(Concat(chunks), disable))
      ensures !res.SectionRead? ==> trailerH == old(trailerH) && trailer == old(trailer)
      ensures res.SectionRead? ==>
        trailerH == old(trailerH) + res.fields && Announced() == old(Announced()) + KeysOf(res.fields)
      ensures res.SectionRead? ==> res.n <= |Concat(chunks)| && left <= Concat(chunks)[res.n..]
      ensures res == EndOfFile ==> left == Concat(chunks)
      ensures res.SectionBad? ==> |left| <= |Concat(chunks)|
    {
      hide TrailerSection, KeysOf, Distinct, Concat;
      var buf := [];
      NoTrailerYet(disable);
      assert chunks[..0] == [];
      for k := 0 to |chunks|
        invariant buf == Concat(chunks[..k]) && TrailerSection(buf, disable) == Wait
        invariant Valid() && trailerH == old(trailerH) && trailer == old(trailer)
      {
        ConcatNext(chunks, k);
        ConcatPrefix(chunks, k + 1);
        buf := buf + chunks[k];
        res, left := TryReadTrailer(buf, disable, false);
        if res != SectionOpen {
          ghost var rest := Concat(chunks)[|buf|..];
          assert Concat(chunks) == buf + rest;
          SectionStable(buf, rest, disable);
          if res.SectionRead? { assert Concat(chunks)[res.n..] == buf[res.n..] + rest; }
          return;
        }
      }
      assert chunks[..|chunks|] == chunks;
      res, left := TryReadTrailer(buf, disable, true);
    }

    /** SetTrailerBytes: afterwards the announced names are exactly the well-formed and permitted
        ones of the list. */
    method SetTrailerBytes(list: seq<byte>, disable: bool) returns (bad: bool)
      requires Valid()
      modifies this`h, this`trailerH, this`slot, this`slotSet, this`trailer
      ensures Valid() && Announced() == NamesIn(list, disable) && Fields() == old(Fields())
      ensures bad == !AllPermitted(list)
      ensures SameOn(trailerH, old(trailerH), NamesIn(list, disable) * old(Announced()))
    {
      hide Named, Rejects, FieldsOf, Slot, Distinct, SameOn, SameBut, Items, ReadName;
      var items := SplitItems(list);
      bad := SetTrailers(items, Reads(disable));
      ListRead(list, disable);
    }

    /** AddTrailerBytes: so many names are announced in addition. */
    method AddTrailerBytes(list: seq<byte>, disable: bool) returns (bad: bool)
      requires Valid()
      modifies this`h, this`trailerH, this`slot, this`slotSet, this`trailer
      ensures Valid() && Announced() == old(Announced()) + NamesIn(list, disable) && Fields() == old(Fields())
      ensures bad == !AllPermitted(list)
      ensures !written ==> Upfront(old(Announced()))
    {
      hide Named, Rejects, FieldsOf, Slot, Distinct, SameOn, SameBut, Items, ReadName;
      var items := SplitItems(list);
      var index;
      bad, index := AddTrailers(items, Reads(disable), true, None);
      ListRead(list, disable);
    }
  }

  // ---- the names of a list, and the fields of a section

  /** An item that may be announced, once the blanks around it are gone. */
  predicate Permitted(item: Name) { ValidKey(Trim(item)) && !Forbidden(Trim(item)) }

  function Reads(disable: bool): Reading { x => ReadName(x, disable) }

  ghost function NamesIn(list: seq<byte>, disable: bool): set<Name> {
    set x | x in Items(list) && Permitted(x) :: if disable then Trim(x) else Canon(Trim(x))
  }

  ghost predicate AllPermitted(list: seq<byte>) { forall x :: x in Items(list) ==> Permitted(x) }

  lemma ListRead(list: seq<byte>, disable: bool)
    ensures Named(Items(list), Reads(disable)) == NamesIn(list, disable)
    ensures Rejects(Items(list), Reads(disable)) == !AllPermitted(list)
  {
    hide Items, ValidKey, Forbidden, Canon, Trim, IsBadTrailer;
    forall x ensures Reads(disable)(x).Some? <==> Permitted(x) { }
  }

  /** What reading a trailer section comes to; EndOfFile is io.EOF. */
  datatype TrailerRead =
    | SectionRead(fields: seq<KV>, n: nat) | SectionOpen | EndOfFile | SectionBad(error: ParseError<TrailerError>)

  /** The outcome of an attempt. At the end of the connection every error is io.EOF. */
  function TrailerOutcome(p: Parsed<seq<KV>, TrailerError>, ended: bool): TrailerRead {
    match p
    case Done(fields, n) => SectionRead(fields, n)
    case Wait => if ended then EndOfFile else SectionOpen
    case Fail(e) => if ended then EndOfFile else SectionBad(e)
  }

  /** The outcome of all bytes of a connection that ends behind them. */
  function AtEnd(p: Parsed<seq<KV>, TrailerError>): TrailerRead {
    if p.Wait? then EndOfFile else TrailerOutcome(p, false)
  }

  datatype TrailerError = ForbiddenKey(key: Name) | BadValue(value: Value)

  /** What one field adds to the section. */
  function Arrived(f: Field, disable: bool): Result<seq<KV>, TrailerError> {
    var key := TrimRight(f.key);
    if key == [] then Ok([])
    else if IsBadTrailer(key) then Err(ForbiddenKey(key))
    else if !f.valueValid then Err(BadValue(f.value))
    else Ok([KV(if disable || f.keyHasSpace then key else Canon(key), f.value)])
  }

  function AddArrived(disable: bool): (seq<KV>, Field) -> Result<seq<KV>, TrailerError> {
    (st: seq<KV>, f: Field) =>
      match Arrived(f, disable)
      case Err(e) => Err(e)
      case Ok(es) => Ok(st + es)
  }

  function Section(b: seq<byte>, r: nat, started: bool, st: seq<KV>, disable: bool): (p: Parsed<seq<KV>, TrailerError>)
    requires r <= |b| && (!started ==> r == 0)
  {
    Fields(b, r, started, st, AddArrived(disable))
  }

  lemma SectionStep(b: seq<byte>, r: nat, started: bool, st: seq<KV>, disable: bool)
    requires r <= |b| && (!started ==> r == 0)
    ensures Section(b, r, started, st, disable) ==
      match if started then NextAt(b, r) else StartAt(b) {
        case More => Wait
        case Failed(e) => Fail(Malformed(e))
        case End(n) => Done(st, n)
        case Got(f, _, n) =>
          match Arrived(f, disable) {
            case Err(e) => Fail(Rejected(e))
            case Ok(es) => Section(b, n, true, st + es, disable)
          }
      }
  {
    hide NextAt, StartAt, Complete, Arrived;
  }

  /** The trailer section in b. */
  function TrailerSection(b: seq<byte>, disable: bool): (p: Parsed<seq<KV>, TrailerError>)
    ensures p.Done? ==> 0 < p.n <= |b|
  {
    Section(b, 0, false, [], disable)
  }

  lemma KeysAppend(a: seq<KV>, b: seq<KV>)
    ensures KeysOf(a + b) == KeysOf(a) + KeysOf(b)
  {
  }

  lemma NoTrailerYet(disable: bool)
    ensures TrailerSection([], disable) == Wait && Concat([]) == []
  {
  }

  /** Any outcome but Wait is the same whatever bytes follow. */
  lemma SectionStable(b: seq<byte>, x: seq<byte>, disable: bool)
    requires TrailerSection(b, disable) != Wait
    ensures TrailerSection(b + x, disable) == TrailerSection(b, disable)
  {
    FieldsStable(b, x, 0, false, [], AddArrived(disable));
  }

  // ---- which sections are accepted, and what is stored

  /** The fields of the section, whatever they are. */
  function Scanned(b: seq<byte>, r: nat, started: bool, fs: seq<Field>): (p: Parsed<seq<Field>, TrailerError>)
    requires r <= |b| && (!started ==> r == 0)
  {
    Fields(b, r, started, fs, HeaderPrint.Append<TrailerError>())
  }

  lemma {:induction false} ScannedExtends(b: seq<byte>, r: nat, started: bool, fs: seq<Field>)
    requires r <= |b| && (!started ==> r == 0) && Scanned(b, r, started, fs).Done?
    ensures fs <= Scanned(b, r, started, fs).state
    decreases |b| - r, !started
  {
    hide NextAt, StartAt, Complete;
    match if started then NextAt(b, r) else StartAt(b)
    case Got(f, _, n) => ScannedExtends(b, n, true, fs + [f]);
    case _ =>
  }

  /** A field with a name that is forbidden in trailers, or with a malformed value. A field
      without a name is passed over. */
  predicate Refused(f: Field) {
    var key := TrimRight(f.key);
    key != [] && (Forbidden(key) || !f.valueValid)
  }

  /** The fields as they are stored. */
  function Stored(fs: seq<Field>, disable: bool): seq<KV> {
    if fs == [] then []
    else
      var f := fs[|fs| - 1];
      var key := TrimRight(f.key);
      Stored(fs[..|fs| - 1], disable) +
      if key == [] then [] else [KV(if disable || f.keyHasSpace then key else Canon(key), f.value)]
  }

  /** A field is stored under its normalized name, or as it came if normalizing is off or the name has a
      space in it; blanks behind the name go, and a field without a name is not stored. */
  lemma StoredOne(fs: seq<Field>, f: Field, disable: bool)
    ensures var name := TrimRight(f.key);
      Stored(fs + [f], disable) == Stored(fs, disable) +
        if name == [] then []
        else [KV(if disable then name else if f.keyHasSpace then name else Canon(name), f.value)]
  {
    hide TrimRight, Canon;
    assert (fs + [f])[..|fs|] == fs;
  }

  ghost predicate NoneRefused(fs: seq<Field>) { forall f :: f in fs ==> !Refused(f) }

  lemma ArrivedIs(fs: seq<Field>, f: Field, disable: bool)
    ensures Arrived(f, disable).Ok? <==> !Refused(f)
    ensures !Refused(f) ==> Stored(fs + [f], disable) == Stored(fs, disable) + Arrived(f, disable).value
  {
    hide Forbidden, IsBadTrailer, Canon, TrimRight;
    IsBadExact(TrimRight(f.key));
    assert (fs + [f])[..|fs|] == fs;
  }

  lemma {:induction false} SectionFrom(b: seq<byte>, r: nat, started: bool, fs: seq<Field>, disable: bool)
    requires r <= |b| && (!started ==> r == 0) && NoneRefused(fs)
    ensures Accepts(Section(b, r, started, Stored(fs, disable), disable), Scanned(b, r, started, fs), disable)
    decreases |b| - r, !started
  {
    hide NextAt, StartAt, Complete, Arrived, Refused, Stored, Section;
    SectionStep(b, r, started, Stored(fs, disable), disable);
    match if started then NextAt(b, r) else StartAt(b)
    case Got(f, _, n) =>
      ArrivedIs(fs, f, disable);
      if Refused(f) {
        var q := Scanned(b, n, true, fs + [f]);
        if q.Done? {
          ScannedExtends(b, n, true, fs + [f]);
          assert q.state[|fs|] == (fs + [f])[|fs|] == f;
        }
      } else {
        SectionFrom(b, n, true, fs + [f], disable);
      }
    case _ =>
  }

  /** p accepts exactly what was scanned without a refused field, and stores all of it. */
  ghost predicate Accepts(p: Parsed<seq<KV>, TrailerError>, q: Parsed<seq<Field>, TrailerError>, disable: bool) {
    && (p.Done? <==> q.Done? && NoneRefused(q.state))
    && (p.Done? ==> p.n == q.n && p.state == Stored(q.state, disable))
  }

  /** A trailer section is read exactly when it is well formed, no name in it is forbidden and no
      value malformed; then all its fields are stored, in order. */
  lemma SectionAccepted(b: seq<byte>, disable: bool)
    ensures Accepts(TrailerSection(b, disable), Scanned(b, 0, false, []), disable)
  {
    hide Section, Scanned, Refused, Accepts;
    assert Stored([], disable) == [];
    SectionFrom(b, 0, false, [], disable);
  }

  /** A section as it is written is read exactly when no name in it is forbidden and no value has a
      control byte; then its fields are stored in order, and the section ends with its empty line. */
  lemma PrintedSection(fs: seq<HeaderPrint.Item>, rest: seq<byte>, disable: bool)
    requires HeaderPrint.AllProper(fs) && HeaderPrint.Closed(fs)
    ensures var p := TrailerSection(HeaderPrint.Block(fs) + rest, disable);
      && (p.Done? <==> NoneRefused(HeaderPrint.ReadAll(fs)))
      && (p.Done? ==> p.state == Stored(HeaderPrint.ReadAll(fs), disable) && p.n == |HeaderPrint.Block(fs)|)
  {
    hide TrailerSection, Fields, Stored, NoneRefused, HeaderPrint.Block, HeaderPrint.AllProper;
    var b := HeaderPrint.Block(fs) + rest;
    SectionAccepted(b, disable);
    HeaderPrint.BlockReads(fs, rest, [], HeaderPrint.Append<TrailerError>());
    HeaderPrint.CollectAll<TrailerError>([], fs);
    assert [] + HeaderPrint.ReadAll(fs) == HeaderPrint.ReadAll(fs);
  }

  lemma {:induction false} StoredPermitted(fs: seq<Field>, disable: bool)
    requires NoneRefused(fs)
    ensures forall e :: e in Stored(fs, disable) ==> !Forbidden(e.key)
  {
    hide Forbidden, Canon, TrimRight;
    if fs != [] {
      var f := fs[|fs| - 1];
      assert !Refused(f);
      StoredPermitted(fs[..|fs| - 1], disable);
      CanonKeepsForbidden(TrimRight(f.key));
    }
  }

  /** No forbidden name gets into the trailer section of a message that is read. */
  lemma NoForbiddenTrailer(b: seq<byte>, disable: bool)
    requires TrailerSection(b, disable).Done?
    ensures forall e :: e in TrailerSection(b, disable).state ==> !Forbidden(e.key)
  {
    hide TrailerSection, Scanned, Stored, Forbidden;
    SectionAccepted(b, disable);
    StoredPermitted(Scanned(b, 0, false, []).state, disable);
  }

  /** Some item cannot be a trailer. */
  predicate Rejects(items: seq<Name>, read: Reading) { exists i :: 0 <= i < |items| && read(items[i]).None? }

  lemma NoItems(read: Reading)
    ensures Named([], read) == {} && !Rejects([], read)
  {
  }

  lemma SwapNames(s: seq<Name>, i: nat, j: nat)
    requires i <= j < |s| && Distinct(s)
    ensures var r := s[i := s[j]][j := s[i]]; Distinct(r) && Elems(r) == Elems(s)
  {
    var r := s[i := s[j]][j := s[i]];
    forall x ensures x in r <==> x in s {
      if x in s {
        var k :| 0 <= k < |s| && s[k] == x;
        assert r[if k == i then j else if k == j then i else k] == x;
      }
    }
  }

  lemma KeptOnce(s: seq<Name>, kept: nat)
    requires Distinct(s) && kept <= |s|
    ensures forall x :: x in Elems(s[..kept]) ==> x !in s[kept..]
    ensures forall x :: x in s[kept..] ==> x in s
    ensures forall x :: x in s ==> x in s[..kept] || x in s[kept..]
  {
  }

  lemma OnceDropped(s: seq<Name>, kept: nat, j: nat)
    requires Distinct(s) && kept <= j < |s|
    ensures s[j] !in s[kept..j]
  {
  }

  lemma NotKept(s: seq<Name>, kept: nat, j: nat)
    requires Distinct(s) && kept <= j < |s|
    ensures s[j] !in Elems(s[..kept])
  {
  }

  lemma SameOnBut(a: seq<KV>, b: seq<KV>, c: seq<KV>, key: Name, names: set<Name>)
    requires SameBut(a, b, key) && SameOn(b, c, names) && key !in names
    ensures SameOn(a, c, names)
  {
  }

  lemma SameTrans(a: seq<KV>, b: seq<KV>, c: seq<KV>, names: set<Name>)
    requires SameOn(a, b, names) && SameOn(b, c, names)
    ensures SameOn(a, c, names)
  {
  }

  lemma NoNames(a: seq<KV>, b: seq<KV>, names: set<Name>)
    requires names == {}
    ensures SameOn(a, b, names)
  {
  }

  lemma SameRefl(a: seq<KV>, names: set<Name>)
    ensures SameOn(a, a, names)
  {
  }

  lemma DistinctPrefix(s: seq<Name>, n: nat)
    requires Distinct(s) && n <= |s|
    ensures Distinct(s[..n])
  {
  }
}
