/** Merging tables (persistent/compaction.cc): merge_two_tables on descending lists and the
    divide and conquer recursion over any number of tables. */
module Merging {
  import opened Keys
  import opened TableImages
  import opened TableLookup
  import opened TableReads

  predicate Descending(es: seq<Entry>) {
    forall i, j | 0 <= i < j < |es| :: KeyLess(es[j].key, es[i].key)
  }

  // No (user key, sequence number) occurs in both lists.
  predicate Apart(a: seq<Entry>, b: seq<Entry>) {
    forall x, y | x in a && y in b :: x.key != y.key
  }

  predicate OnePerUser(es: seq<Entry>) {
    forall i, j | 0 <= i < j < |es| :: es[i].key.user != es[j].key.user
  }

  // The list keeps, of everything it was made from, at least the newest version of each key.
  predicate Keeps(r: seq<Entry>, all: seq<Entry>) {
    && (forall e | e in r :: e in all)
    && (forall e | e in all :: Covered(r, e))
  }

  // A version of this entry's key at least as new is in the list.
  predicate Covered(r: seq<Entry>, e: Entry) {
    exists i | 0 <= i < |r| :: r[i].key.user == e.key.user && e.key.seqNo <= r[i].key.seqNo
  }

  lemma CoveredBy(r: seq<Entry>, k: Entry, e: Entry)
    requires k in r && k.key.user == e.key.user && e.key.seqNo <= k.key.seqNo
    ensures Covered(r, e)
  {}

  /* ------------------------------------------------------------- two tables */

  // std::merge of two ascending ranges; ties come from the first.
  function MergeAscending(a: seq<Entry>, b: seq<Entry>): seq<Entry> {
    if a == [] then b
    else if b == [] then a
    else if KeyLess(b[0].key, a[0].key) then [b[0]] + MergeAscending(a, b[1..])
    else [a[0]] + MergeAscending(a[1..], b)
  }

  // std::unique by user key: the first of every run of equal user keys stays.
  function Unique(es: seq<Entry>): seq<Entry> {
    if |es| <= 1 then es
    else
      var rest := Unique(es[1..]);
      if es[1].key.user == es[0].key.user then [es[0]] + rest[1..] else [es[0]] + rest
  }

  // compactor::merge_two_tables; its assertions are the preconditions.
  function MergeTwoTables(lhs: seq<Entry>, rhs: seq<Entry>): (r: seq<Entry>)
    requires lhs != [] && rhs != [] && Descending(lhs) && Descending(rhs)
  {
    Unique(Reverse(MergeAscending(Reverse(lhs), Reverse(rhs))))
  }

  lemma {:induction false} UniqueSnoc(es: seq<Entry>, x: Entry)
    requires es != []
    ensures Unique(es) != [] && Unique(es)[|Unique(es)| - 1].key.user == es[|es| - 1].key.user
    ensures Unique(es + [x]) == (if es[|es| - 1].key.user == x.key.user then Unique(es) else Unique(es) + [x])
    ensures Unique(es)[0] == es[0]
  {
    if |es| == 1 {
      assert (es + [x])[1..] == [x];
      assert Unique([x]) == [x];
    } else {
      hide Unique;
      var tail := es[1..];
      assert es == [es[0]] + tail && es + [x] == [es[0]] + (tail + [x]);
      UniqueSnoc(tail, x);
      UniqueCons(es[0], tail);
      UniqueCons(es[0], tail + [x]);
      Headless(es[0], Unique(tail), x);
    }
  }

  lemma Headless(e: Entry, u: seq<Entry>, x: Entry)
    requires u != []
    ensures [e] + (u + [x])[1..] == [e] + u[1..] + [x] && [e] + (u + [x]) == [e] + u + [x]
    ensures |[e] + u[1..]| == |u| && (|u| > 1 ==> ([e] + u[1..])[|u| - 1] == u[|u| - 1])
    ensures |[e] + u| == |u| + 1 && ([e] + u)[|u|] == u[|u| - 1]
    ensures u + [x] != []
  {
    assert (u + [x])[1..] == u[1..] + [x];
  }

  lemma UniqueCons(e: Entry, tail: seq<Entry>)
    requires tail != []
    ensures Unique([e] + tail) == [e] + (if tail[0].key.user == e.key.user
              && Unique(tail) != [] then Unique(tail)[1..] else Unique(tail))
  {
    assert ([e] + tail)[1..] == tail && ([e] + tail)[1] == tail[0];
  }

  // std::merge of the two lists read backwards, with a front inserter.
  method MergeToFront(lhs: seq<Entry>, rhs: seq<Entry>) returns (merged: seq<Entry>)
    ensures merged == Reverse(MergeAscending(Reverse(lhs), Reverse(rhs)))
  {
    hide KeyLess;
    var a, b := Reverse(lhs), Reverse(rhs);
    var i, j := 0, 0;
    merged := [];
    assert a[0..] == a && b[0..] == b;
    while i < |a| && j < |b|
      invariant i <= |a| && j <= |b| && |merged| == i + j
      invariant Reverse(MergeAscending(a, b)) == Reverse(MergeAscending(a[i..], b[j..])) + merged
      decreases |a| - i + |b| - j
    {
      assert a[i..][1..] == a[i + 1..] && b[j..][1..] == b[j + 1..];
      if KeyLess(b[j].key, a[i].key) {
        PushOne(b[j], MergeAscending(a[i..], b[j + 1..]), merged);
        merged := [b[j]] + merged;
        j := j + 1;
      } else {
        PushOne(a[i], MergeAscending(a[i + 1..], b[j..]), merged);
        merged := [a[i]] + merged;
        i := i + 1;
      }
    }
    var rest := a[i..] + b[j..];
    assert rest == MergeAscending(a[i..], b[j..]);
    merged := Reverse(rest) + merged;
  }

  // std::unique by user key.
  method EraseOlder(merged: seq<Entry>) returns (result: seq<Entry>)
    requires merged != []
    ensures result == Unique(merged)
  {
    result := merged[..1];
    var k := 1;
    while k < |merged|
      invariant 1 <= k <= |merged| && result == Unique(merged[..k])
    {
      UniqueSnoc(merged[..k], merged[k]);
      assert merged[..k + 1] == merged[..k] + [merged[k]];
      if result[|result| - 1].key.user != merged[k].key.user {
        result := result + [merged[k]];
      }
      k := k + 1;
    }
    assert merged[..k] == merged;
  }

  lemma {:induction false} MergeLength(a: seq<Entry>, b: seq<Entry>)
    ensures |MergeAscending(a, b)| == |a| + |b|
  {
    if a != [] && b != [] {
      MergeLength(a, b[1..]);
      MergeLength(a[1..], b);
    }
  }

  // The loops behind merge_two_tables: merge, then drop all but the first of each user key.
  method MergeTwoTablesLoop(lhs: seq<Entry>, rhs: seq<Entry>) returns (result: seq<Entry>)
    requires lhs != [] && rhs != [] && Descending(lhs) && Descending(rhs)
    ensures result == MergeTwoTables(lhs, rhs)
  {
    hide Descending, MergeAscending, Unique, Reverse;
    MergeLength(Reverse(lhs), Reverse(rhs));
    var merged := MergeToFront(lhs, rhs);
    result := EraseOlder(merged);
  }

  lemma PushOne(e: Entry, rest: seq<Entry>, merged: seq<Entry>)
    ensures Reverse([e] + rest) + merged == Reverse(rest) + ([e] + merged)
  {
    assert ([e] + rest)[1..] == rest;
  }

  lemma ReverseReverses(es: seq<Entry>)
    ensures |Reverse(es)| == |es|
    ensures forall k | 0 <= k < |es| :: Reverse(es)[k] == es[|es| - 1 - k]
    ensures forall e :: e in Reverse(es) <==> e in es
  {
    forall k | 0 <= k < |es| ensures Reverse(es)[k] == es[|es| - 1 - k] {
      ReverseAt(es, k);
    }
    forall e | e in es ensures e in Reverse(es) {
      var i :| 0 <= i < |es| && es[i] == e;
      assert Reverse(es)[|es| - 1 - i] == e;
    }
  }

  lemma ReverseOrder(es: seq<Entry>)
    ensures Descending(es) ==> KeySorted(Reverse(es))
    ensures KeySorted(es) ==> Descending(Reverse(es))
  {
    hide KeyLess;
    ReverseReverses(es);
    if Descending(es) {
      forall i, j | 0 <= i < j < |es| ensures KeyLess(Reverse(es)[i].key, Reverse(es)[j].key) {}
    }
    if KeySorted(es) {
      forall i, j | 0 <= i < j < |es| ensures KeyLess(Reverse(es)[j].key, Reverse(es)[i].key) {}
    }
  }

  lemma {:induction false} MergeHolds(a: seq<Entry>, b: seq<Entry>)
    ensures forall e :: e in MergeAscending(a, b) <==> e in a || e in b
  {
    if a != [] && b != [] {
      MergeHolds(a, b[1..]);
      MergeHolds(a[1..], b);
      forall e ensures e in b <==> e == b[0] || e in b[1..] {}
      forall e ensures e in a <==> e == a[0] || e in a[1..] {}
    }
  }

  lemma SortedFromHead(e: Entry, es: seq<Entry>)
    requires KeySorted(es) && forall x | x in es :: KeyLess(e.key, x.key)
    ensures KeySorted([e] + es)
  {
    hide KeyLess;
    var all := [e] + es;
    forall i, j | 0 <= i < j < |all| ensures KeyLess(all[i].key, all[j].key) {
      if i == 0 { assert all[j] == es[j - 1]; assert es[j - 1] in es; }
    }
  }

  lemma SortedTail(es: seq<Entry>)
    requires KeySorted(es) && es != []
    ensures KeySorted(es[1..]) && forall x | x in es[1..] :: KeyLess(es[0].key, x.key)
  {
    hide KeyLess;
    forall x | x in es[1..] ensures KeyLess(es[0].key, x.key) {
      var i :| 0 <= i < |es[1..]| && es[1..][i] == x;
      assert x == es[i + 1];
    }
  }

  lemma {:induction false} MergeSorts(a: seq<Entry>, b: seq<Entry>)
    requires KeySorted(a) && KeySorted(b) && Apart(a, b)
    ensures KeySorted(MergeAscending(a, b))
  {
    hide KeyLess, KeySorted;
    if a != [] && b != [] {
      SortedTail(a);
      SortedTail(b);
      if KeyLess(b[0].key, a[0].key) {
        MergeSorts(a, b[1..]);
        MergeHolds(a, b[1..]);
        HeadBelow(b[0], a);
        SortedFromHead(b[0], MergeAscending(a, b[1..]));
      } else {
        assert a[0] in a && b[0] in b && a[0].key != b[0].key;
        KeyOrderStrictTotal(a[0].key, b[0].key, b[0].key);
        MergeSorts(a[1..], b);
        MergeHolds(a[1..], b);
        HeadBelow(a[0], b);
        SortedFromHead(a[0], MergeAscending(a[1..], b));
      }
    }
  }

  lemma HeadBelow(e: Entry, es: seq<Entry>)
    requires KeySorted(es) && es != [] && KeyLess(e.key, es[0].key)
    ensures forall x | x in es :: KeyLess(e.key, x.key)
  {
    hide KeyLess;
    forall x | x in es ensures KeyLess(e.key, x.key) {
      var i :| 0 <= i < |es| && es[i] == x;
      if i > 0 {
        assert KeyLess(es[0].key, es[i].key);
        KeyOrderStrictTotal(e.key, es[0].key, x.key);
      }
    }
  }

  // In a descending list the versions of one key are neighbours, the newest first; unique keeps
  // exactly that one.
  lemma {:induction false} UniqueKeepsNewest(es: seq<Entry>)
    requires Descending(es)
    ensures Descending(Unique(es)) && OnePerUser(Unique(es)) && Keeps(Unique(es), es)
    ensures es != [] ==> Unique(es) != [] && Unique(es)[0] == es[0]
  {
    hide KeyLess;
    if |es| <= 1 {
    } else {
      hide Covered, OnePerUser;
      var e, tail := es[0], es[1..];
      assert Descending(tail);
      UniqueKeepsNewest(tail);
      var rest := Unique(tail);
      var kept := if es[1].key.user == e.key.user then rest[1..] else rest;
      assert Unique(es) == [e] + kept;
      KeptTail(rest);
      forall x | x in kept ensures KeyLess(x.key, e.key) && x.key.user != e.key.user {
        KeptBelow(es, rest, x);
      }
      PrependKept(e, kept);
      forall x | x in es ensures Covered(Unique(es), x) {
        KeepsWitness(es, rest, kept, x);
      }
      forall x | x in Unique(es) ensures x in es {
        if x != e { assert x in rest; assert x in tail; }
      }
    }
  }

  lemma KeptTail(rest: seq<Entry>)
    requires rest != [] && Descending(rest) && OnePerUser(rest)
    ensures Descending(rest[1..]) && OnePerUser(rest[1..])
  {
    hide KeyLess;
  }

  lemma PrependKept(e: Entry, kept: seq<Entry>)
    requires Descending(kept) && OnePerUser(kept)
    requires forall x | x in kept :: KeyLess(x.key, e.key) && x.key.user != e.key.user
    ensures Descending([e] + kept) && OnePerUser([e] + kept)
  {
    hide KeyLess;
    var all := [e] + kept;
    forall i, j | 0 <= i < j < |all| ensures KeyLess(all[j].key, all[i].key) && all[i].key.user != all[j].key.user {
      assert all[j] == kept[j - 1];
      assert kept[j - 1] in kept;
    }
  }

  lemma InDescending(es: seq<Entry>, x: Entry)
    requires Descending(es) && x in es
    ensures x == es[0] || (KeyLess(x.key, es[0].key)
              && (x.key.user == es[0].key.user ==> x.key.seqNo < es[0].key.seqNo))
  {
    hide KeyLess, UserLess;
    var i :| 0 <= i < |es| && es[i] == x;
    if i > 0 {
      KeyLessByUser(es[i].key, es[0].key);
      UserOrderStrictTotal(x.key.user, x.key.user, x.key.user);
    }
  }

  // What unique keeps of the tail lies below the head and belongs to other user keys.
  lemma KeptBelow(es: seq<Entry>, rest: seq<Entry>, x: Entry)
    requires |es| >= 2 && Descending(es) && rest == Unique(es[1..]) && rest != [] && rest[0] == es[1]
    requires Descending(rest) && OnePerUser(rest) && (forall e | e in rest :: e in es[1..])
    requires x in (if es[1].key.user == es[0].key.user then rest[1..] else rest)
    ensures KeyLess(x.key, es[0].key) && x.key.user != es[0].key.user
  {
    hide KeyLess, UserLess;
    var i :| 0 <= i < |rest| && rest[i] == x && (es[1].key.user == es[0].key.user ==> i >= 1);
    assert x in rest && x in es[1..];
    var j :| 0 <= j < |es[1..]| && es[1..][j] == x;
    assert KeyLess(es[j + 1].key, es[0].key);
    if x.key.user == es[0].key.user {
      if i > 0 {
        // then es[1] lies between two versions of one key and is one itself
        KeyLessByUser(rest[i].key, rest[0].key);
        KeyLessByUser(es[1].key, es[0].key);
        UserOrderStrictTotal(x.key.user, es[1].key.user, es[0].key.user);
      }
    }
  }

  lemma KeepsWitness(es: seq<Entry>, rest: seq<Entry>, kept: seq<Entry>, x: Entry)
    requires |es| >= 2 && Descending(es) && rest == Unique(es[1..]) && rest != [] && rest[0] == es[1]
    requires Keeps(rest, es[1..]) && kept == (if es[1].key.user == es[0].key.user then rest[1..] else rest)
    requires x in es
    ensures Covered([es[0]] + kept, x)
  {
    hide KeyLess, Unique, Descending;
    var all := [es[0]] + kept;
    assert all[0] == es[0];
    InDescending(es, x);
    if x.key.user == es[0].key.user {
      CoveredBy(all, es[0], x);
    } else {
      assert x in es[1..];
      assert Covered(rest, x);
      var i :| 0 <= i < |rest| && rest[i].key.user == x.key.user && x.key.seqNo <= rest[i].key.seqNo;
      if es[1].key.user == es[0].key.user {
        assert all[i] == rest[i];
      } else {
        assert all[i + 1] == rest[i];
      }
    }
  }

  // Merging two descending tables without common keys: strictly descending, one entry per user key
  // of either table, and that entry is the newest one.
  lemma MergeTwoNewest(lhs: seq<Entry>, rhs: seq<Entry>)
    requires lhs != [] && rhs != [] && Descending(lhs) && Descending(rhs) && Apart(lhs, rhs)
    ensures var r := MergeTwoTables(lhs, rhs);
            r != [] && Descending(r) && OnePerUser(r) && Keeps(r, lhs + rhs)
  {
    hide KeyLess, Keeps, KeySorted, Unique, MergeAscending, OnePerUser;
    var a, b := Reverse(lhs), Reverse(rhs);
    ReverseReverses(lhs);
    ReverseReverses(rhs);
    ReverseOrder(lhs);
    ReverseOrder(rhs);
    assert Apart(a, b);
    var merged := MergeAscending(a, b);
    MergeSorts(a, b);
    MergeHolds(a, b);
    ReverseReverses(merged);
    ReverseOrder(merged);
    assert a[0] in merged;
    UniqueKeepsNewest(Reverse(merged));
    forall e ensures e in Reverse(merged) <==> e in lhs + rhs {}
    KeepsSame(MergeTwoTables(lhs, rhs), Reverse(merged), lhs + rhs);
  }

  lemma KeepsSame(r: seq<Entry>, all: seq<Entry>, same: seq<Entry>)
    requires Keeps(r, all) && forall e :: e in all <==> e in same
    ensures Keeps(r, same)
  {}

  lemma KeepsThrough(r: seq<Entry>, m1: seq<Entry>, m2: seq<Entry>, all1: seq<Entry>, all2: seq<Entry>)
    requires Keeps(r, m1 + m2) && Keeps(m1, all1) && Keeps(m2, all2)
    ensures Keeps(r, all1 + all2)
  {
    hide Covered;
    forall e | e in r ensures e in all1 + all2 {
      assert e in m1 + m2;
    }
    forall e | e in all1 + all2 ensures Covered(r, e) {
      if e in all1 { CoveredThrough(r, m1 + m2, m1, e); } else { CoveredThrough(r, m1 + m2, m2, e); }
    }
  }

  lemma CoveredThrough(r: seq<Entry>, m: seq<Entry>, part: seq<Entry>, e: Entry)
    requires Keeps(r, m) && Covered(part, e) && forall x | x in part :: x in m
    ensures Covered(r, e)
  {
    var i :| 0 <= i < |part| && part[i].key.user == e.key.user && e.key.seqNo <= part[i].key.seqNo;
    assert part[i] in m && Covered(r, part[i]);
  }

  /* ------------------------------------------------------------- many tables */

  // Tables as get_entries_from_sstable_at_once delivers them: non-empty, descending, no shared keys.
  predicate MergeableTables(tables: seq<seq<Entry>>) {
    && (forall i | 0 <= i < |tables| :: tables[i] != [] && Descending(tables[i]))
    && (forall i, j | 0 <= i < j < |tables| :: Apart(tables[i], tables[j]))
  }

  /* Any way of pairing tables up. */
  datatype MergeTree = Leaf(table: seq<Entry>) | Node(left: MergeTree, right: MergeTree)

  function Leaves(t: MergeTree): seq<seq<Entry>> {
    match t
    case Leaf(es) => [es]
    case Node(l, r) => Leaves(l) + Leaves(r)
  }

  // Merging bottom up along a tree. A single table is passed on as it is, with all its versions.
  function MergeUp(t: MergeTree): (r: seq<Entry>)
    requires MergeableTables(Leaves(t))
    ensures r != [] && Descending(r) && Keeps(r, Flat(Leaves(t)))
    ensures t.Node? ==> OnePerUser(r)
  {
    match t
    case Leaf(es) =>
      assert Flat([es]) == es by { assert es + [] == es; }
      assert Leaves(t)[0] == es;
      es
    case Node(l, r) =>
      SplitMergeable(Leaves(l), Leaves(r));
      var ml, mr := MergeUp(l), MergeUp(r);
      ApartThrough(ml, mr, Leaves(l), Leaves(r));
      MergeTwoNewest(ml, mr);
      FlatConcat(Leaves(l), Leaves(r));
      KeepsThrough(MergeTwoTables(ml, mr), ml, mr, Flat(Leaves(l)), Flat(Leaves(r)));
      MergeTwoTables(ml, mr)
  }

  lemma SplitMergeable(a: seq<seq<Entry>>, b: seq<seq<Entry>>)
    requires MergeableTables(a + b)
    ensures MergeableTables(a) && MergeableTables(b)
    ensures forall i, j | 0 <= i < |a| && 0 <= j < |b| :: Apart(a[i], b[j])
  {
    hide Apart, Descending;
    var all := a + b;
    forall i | 0 <= i < |a| ensures all[i] == a[i] {}
    forall j | 0 <= j < |b| ensures all[|a| + j] == b[j] {}
    forall i, j | 0 <= i < j < |b| ensures Apart(b[i], b[j]) {
      assert Apart(all[|a| + i], all[|a| + j]);
    }
    forall i, j | 0 <= i < |a| && 0 <= j < |b| ensures Apart(a[i], b[j]) {
      assert Apart(all[i], all[|a| + j]);
    }
  }

  lemma {:induction false} FlatHolds(tables: seq<seq<Entry>>, e: Entry)
    ensures e in Flat(tables) <==> exists i | 0 <= i < |tables| :: e in tables[i]
  {
    if tables != [] {
      FlatHolds(tables[1..], e);
      if exists i | 0 <= i < |tables| :: e in tables[i] {
        var i :| 0 <= i < |tables| && e in tables[i];
        if i > 0 { assert tables[1..][i - 1] == tables[i]; }
      }
    }
  }

  lemma ApartThrough(ml: seq<Entry>, mr: seq<Entry>, l: seq<seq<Entry>>, r: seq<seq<Entry>>)
    requires Keeps(ml, Flat(l)) && Keeps(mr, Flat(r))
    requires forall i, j | 0 <= i < |l| && 0 <= j < |r| :: Apart(l[i], r[j])
    ensures Apart(ml, mr)
  {
    hide Covered, Flat;
    forall x, y | x in ml && y in mr ensures x.key != y.key {
      assert x in Flat(l) && y in Flat(r);
      FlatHolds(l, x);
      FlatHolds(r, y);
      var i :| 0 <= i < |l| && x in l[i];
      var j :| 0 <= j < |r| && y in r[j];
      assert Apart(l[i], r[j]);
    }
  }

  // devide_and_conquer_merge
  function DevideAndConquerMerge(tables: seq<seq<Entry>>): (r: seq<Entry>)
    requires tables != [] && MergeableTables(tables)
    ensures r != [] && Descending(r) && r == MergeUp(HalvingTree(tables))
    decreases |tables|
  {
    if |tables| == 1 then
      tables[0]
    else if |tables| == 2 then
      PairTree(tables);
      MergeTwoTables(tables[0], tables[1])
    else
      var half := |tables| / 2;
      HalvesTree(tables);
      MergeTwoTables(DevideAndConquerMerge(tables[..half]), DevideAndConquerMerge(tables[half..]))
  }

  lemma HalvesTree(tables: seq<seq<Entry>>)
    requires |tables| >= 2 && MergeableTables(tables)
    ensures var l, r := tables[..|tables| / 2], tables[|tables| / 2..];
            && MergeableTables(l) && MergeableTables(r)
            && Leaves(HalvingTree(l)) == l && Leaves(HalvingTree(r)) == r && Leaves(HalvingTree(tables)) == tables
            && MergeUp(HalvingTree(tables)) == MergeTwoTables(MergeUp(HalvingTree(l)), MergeUp(HalvingTree(r)))
  {
    hide MergeTwoTables, Apart, Descending, Keeps, OnePerUser;
    var half := |tables| / 2;
    var l, r := tables[..half], tables[half..];
    assert tables == l + r;
    SplitMergeable(l, r);
  }

  lemma PairTree(tables: seq<seq<Entry>>)
    requires |tables| == 2 && MergeableTables(tables)
    ensures HalvingTree(tables) == Node(Leaf(tables[0]), Leaf(tables[1]))
    ensures MergeableTables(Leaves(HalvingTree(tables)))
    ensures MergeUp(HalvingTree(tables)) == MergeTwoTables(tables[0], tables[1])
  {
    hide MergeTwoTables, Apart, Descending;
    assert HalvingTree(tables[..1]) == Leaf(tables[0]) && HalvingTree(tables[1..]) == Leaf(tables[1]);
  }

  function HalvingTree(tables: seq<seq<Entry>>): (t: MergeTree)
    requires tables != []
    ensures Leaves(t) == tables
    decreases |tables|
  {
    if |tables| == 1 then Leaf(tables[0])
    else Node(HalvingTree(tables[..|tables| / 2]), HalvingTree(tables[|tables| / 2..]))
  }

  // Merge tree theorem: for two or more tables, however they are paired up, the result is strictly
  // descending and holds, for every user key occurring anywhere, exactly its newest version.
  lemma MergeTreeNewest(t: MergeTree)
    requires t.Node? && MergeableTables(Leaves(t))
    ensures var r, all := MergeUp(t), Flat(Leaves(t));
            && Descending(r) && OnePerUser(r)
            && (forall e | e in all :: Covered(r, e))
            && (forall k, e | k in r && e in all && e.key.user == k.key.user :: k in all && e.key.seqNo <= k.key.seqNo)
  {
    hide KeyLess, Descending;
    var r, all := MergeUp(t), Flat(Leaves(t));
    forall k, e | k in r && e in all && e.key.user == k.key.user ensures e.key.seqNo <= k.key.seqNo {
      KeptIsNewest(r, all, k, e);
    }
  }

  lemma KeptIsNewest(r: seq<Entry>, all: seq<Entry>, k: Entry, e: Entry)
    requires Keeps(r, all) && OnePerUser(r) && k in r && e in all && e.key.user == k.key.user
    ensures e.key.seqNo <= k.key.seqNo
  {
    assert Covered(r, e);
    var j :| 0 <= j < |r| && r[j].key.user == e.key.user && e.key.seqNo <= r[j].key.seqNo;
    var i :| 0 <= i < |r| && r[i] == k;
    assert i == j;
  }

  // compactor::merge_tables is such a merge.
  lemma MergeTablesNewest(tables: seq<seq<Entry>>)
    requires |tables| >= 2 && MergeableTables(tables)
    ensures var r := DevideAndConquerMerge(tables);
            && Descending(r) && OnePerUser(r) && Keeps(r, Flat(tables))
            && (forall k, e | k in r && e in Flat(tables) && e.key.user == k.key.user :: e.key.seqNo <= k.key.seqNo)
  {
    hide *;
    HalvingNode(tables);
    MergeTreeNewest(HalvingTree(tables));
  }

  lemma HalvingNode(tables: seq<seq<Entry>>)
    requires |tables| >= 2
    ensures HalvingTree(tables).Node?
  {}
}
