/** Writing sorted entries out as tables: the loop shared by merged_list_to_sst
    (persistent/compaction.cc) and flush_to_disk (db/memtable_flusher.cc), which starts a new
    builder whenever the current one reached its size limit. */
module TableWriting {
  import opened Bytes
  import opened Keys
  import opened Blocks
  import opened BlockFiles
  import opened BlockImages
  import opened TableImages
  import opened TableLookup
  import opened TableReads
  import opened TableTheorems
  import opened Merging

  // The entries of all tables, in order.
  function AllEntries(tables: seq<seq<seq<Entry>>>): seq<Entry> {
    if tables == [] then [] else Flat(tables[0]) + AllEntries(tables[1..])
  }

  lemma {:induction false} AllEntriesAppend(tables: seq<seq<seq<Entry>>>, parts: seq<seq<Entry>>)
    ensures AllEntries(tables + [parts]) == AllEntries(tables) + Flat(parts)
  {
    if tables == [] {
      assert tables + [parts] == [parts];
      assert AllEntries([parts]) == Flat(parts) + [];
    } else {
      assert (tables + [parts])[1..] == tables[1..] + [parts];
      AllEntriesAppend(tables[1..], parts);
    }
  }

  // Every length stays within its field whatever run of these entries forms a block (which is
  // closed as soon as it reaches the block size) or a table.
  ghost predicate RunsFit(cfg: TableConfig, es: seq<Entry>) {
    && Usable(cfg.block) && |es| < 0x1_0000_0000
    && forall i, j | 0 <= i < j <= |es| :: RunFits(cfg, es[i..j])
  }

  ghost predicate RunFits(cfg: TableConfig, run: seq<Entry>)
    requires Usable(cfg.block) && run != []
  {
    && (|run| == 1 || PendingSize(run[..|run| - 1]) < cfg.blockSize ==> GoodBlock(cfg.block, run))
    && GoodMeta(cfg, run)
  }

  lemma {:induction false} FewParts(parts: seq<seq<Entry>>)
    requires NonEmptyParts(parts)
    ensures |parts| <= |Flat(parts)|
  {
    if parts != [] {
      FewParts(parts[1..]);
    }
  }

  lemma {:induction false} BlocksBounded(cfg: Config, parts: seq<seq<Entry>>)
    requires Usable(cfg) && GoodBlocks(cfg, parts)
    ensures |BlocksImage(cfg, parts)| <= |parts| * 0x1_0000_0000
  {
    hide BuiltImage, Group, Fits;
    if parts != [] {
      assert GoodBlock(cfg, parts[0]);
      ImageLength(cfg, parts[0]);
      BlocksBounded(cfg, parts[1..]);
    }
  }

  // A finished builder's blocks are a well formed table.
  lemma FinishedIsWellFormed(cfg: TableConfig, parts: seq<seq<Entry>>)
    requires Usable(cfg.block) && parts != [] && GoodBlocks(cfg.block, parts) && KeySorted(Flat(parts))
    requires |Flat(parts)| < 0x1_0000_0000 && GoodMeta(cfg, Flat(parts))
    ensures WellFormed(cfg, parts)
  {
    hide GoodBlock, KeySorted, GoodMeta;
    FewParts(parts);
    BlocksBounded(cfg.block, parts);
  }

  ghost predicate Written(cfg: TableConfig, files: seq<Data>, tables: seq<seq<seq<Entry>>>) {
    && |files| == |tables|
    && forall t | 0 <= t < |tables| :: WellFormed(cfg, tables[t]) && files[t] == TableOf(cfg, tables[t])
  }

  lemma RunSorted(es: seq<Entry>, i: nat, j: nat)
    requires KeySorted(es) && i <= j <= |es|
    ensures KeySorted(es[i..j])
  {
    hide KeyLess;
  }

  // Closing a builder whose entries are the run es[i..k].
  method FinishTable(cfg: TableConfig, builder: SstableBuilder, ghost es: seq<Entry>, ghost i: nat, ghost k: nat)
    returns (file: Data, ghost parts: seq<seq<Entry>>)
    requires RunsFit(cfg, es) && KeySorted(es) && i < k <= |es|
    requires builder.Valid() && !builder.finished && builder.cfg == cfg && builder.Entries() == es[i..k]
    modifies builder, builder.blockBuilder
    ensures WellFormed(cfg, parts) && file == TableOf(cfg, parts) && Flat(parts) == es[i..k]
    ensures parts == old(builder.parts) + (if old(builder.pending) == [] then [] else [old(builder.pending)])
  {
    hide BlockBuilder.Valid, GoodBlock, KeySorted, TableOf, FilterOf, FirstUk, LastUk, PendingSize, BlocksImage, Flat;
    ghost var run := es[i..k];
    assert RunFits(cfg, run);
    RunSorted(es, i, k);
    MetaNonEmpty(cfg, run);
    assert MetaEntries(builder.firstUk, builder.lastUk, builder.filterRep) == MetaEntriesOf(MetaOf(cfg, run));
    builder.Finish();
    file, parts := builder.file, builder.parts;
    NoParts(parts);
    FinishedIsWellFormed(cfg, parts);
  }

  lemma NoParts(parts: seq<seq<Entry>>)
    ensures parts == [] ==> Flat(parts) == []
  {}

  /* ------------------------------------------------------ where blocks and tables end */

  // No entry before the block's last one brought it to the block size.
  predicate Grew(cfg: TableConfig, block: seq<Entry>) {
    forall n | 0 < n < |block| :: PendingSize(block[..n]) < cfg.blockSize
  }

  // The last entry did.
  predicate ClosedBlock(cfg: TableConfig, block: seq<Entry>) {
    block != [] && Grew(cfg, block) && cfg.blockSize <= PendingSize(block)
  }

  predicate ClosedBlocks(cfg: TableConfig, parts: seq<seq<Entry>>) {
    forall j | 0 <= j < |parts| :: ClosedBlock(cfg, parts[j])
  }

  // A table that ended because the next entry was refused: its last block, and no other, reached the limit.
  predicate FullTable(cfg: TableConfig, limit: nat, parts: seq<seq<Entry>>) {
    ClosedBlocks(cfg, parts) && 4 * (|parts| - 1) < limit <= 4 * |parts|
  }

  // The table that was open when the entries ran out: its last block may be open.
  predicate LastTable(cfg: TableConfig, limit: nat, parts: seq<seq<Entry>>) {
    && parts != [] && 4 * (|parts| - 1) < limit
    && ClosedBlocks(cfg, parts[..|parts| - 1])
    && parts[|parts| - 1] != [] && Grew(cfg, parts[|parts| - 1])
  }

  // How entries are divided into tables and blocks.
  predicate Divided(cfg: TableConfig, limit: nat, tables: seq<seq<seq<Entry>>>) {
    && tables != [] && LastTable(cfg, limit, tables[|tables| - 1])
    && forall t | 0 <= t < |tables| - 1 :: FullTable(cfg, limit, tables[t])
  }

  // The sizes leave one way only to divide the entries.
  lemma DividedOnce(cfg: TableConfig, limit: nat, a: seq<seq<seq<Entry>>>, b: seq<seq<seq<Entry>>>)
    requires Divided(cfg, limit, a) && Divided(cfg, limit, b) && AllEntries(a) == AllEntries(b)
    ensures a == b
  {
    hide ClosedBlocks, Grew, AllEntries, AllBlocks, Flat;
    BlocksHold(a);
    BlocksHold(b);
    DividedBlocks(cfg, limit, a);
    DividedBlocks(cfg, limit, b);
    SameBlocks(cfg, AllBlocks(a), AllBlocks(b));
    SameTables(limit, a, b);
  }

  // The blocks of all tables, in order.
  function AllBlocks(tables: seq<seq<seq<Entry>>>): seq<seq<Entry>> {
    if tables == [] then [] else tables[0] + AllBlocks(tables[1..])
  }

  lemma {:induction false} BlocksHold(tables: seq<seq<seq<Entry>>>)
    ensures Flat(AllBlocks(tables)) == AllEntries(tables)
  {
    if tables != [] {
      BlocksHold(tables[1..]);
      FlatConcat(tables[0], AllBlocks(tables[1..]));
    }
  }

  // Blocks of which only the last may be open.
  predicate BlockRun(cfg: TableConfig, blocks: seq<seq<Entry>>) {
    && blocks != [] && ClosedBlocks(cfg, blocks[..|blocks| - 1])
    && blocks[|blocks| - 1] != [] && Grew(cfg, blocks[|blocks| - 1])
  }

  lemma {:induction false} DividedBlocks(cfg: TableConfig, limit: nat, tables: seq<seq<seq<Entry>>>)
    requires Divided(cfg, limit, tables)
    ensures BlockRun(cfg, AllBlocks(tables))
  {
    hide ClosedBlock, Grew;
    if |tables| == 1 {
      assert AllBlocks(tables) == tables[0] + [];
    } else {
      var first, rest := tables[0], AllBlocks(tables[1..]);
      DividedBlocks(cfg, limit, tables[1..]);
      assert (first + rest)[..|first + rest| - 1] == first + rest[..|rest| - 1];
    }
  }

  lemma {:induction false} SameBlocks(cfg: TableConfig, a: seq<seq<Entry>>, b: seq<seq<Entry>>)
    requires BlockRun(cfg, a) && BlockRun(cfg, b) && Flat(a) == Flat(b)
    ensures a == b
    decreases |a|
  {
    hide Grew, ClosedBlocks;
    FirstNotShorter(cfg, a, b);
    FirstNotShorter(cfg, b, a);
    assert a[0] == Flat(a)[..|a[0]|] == b[0];
    assert Flat(a[1..]) == Flat(a)[|a[0]|..] == Flat(b[1..]);
    FlatEmpty(cfg, a);
    FlatEmpty(cfg, b);
    if |a| > 1 {
      RestRuns(cfg, a);
      RestRuns(cfg, b);
      SameBlocks(cfg, a[1..], b[1..]);
    }
    assert a == [a[0]] + a[1..] && b == [b[0]] + b[1..];
  }

  // A block that ends where the other one goes on is not closed there, so it is the last one.
  lemma FirstNotShorter(cfg: TableConfig, a: seq<seq<Entry>>, b: seq<seq<Entry>>)
    requires BlockRun(cfg, a) && BlockRun(cfg, b) && Flat(a) == Flat(b)
    ensures |a[0]| >= |b[0]|
  {
    hide PendingSize;
    assert |a| == 1 || ClosedBlock(cfg, a[..|a| - 1][0]);
    assert |b| == 1 || ClosedBlock(cfg, b[..|b| - 1][0]);
    assert |a| == 1 ==> Flat(a[1..]) == [];
    assert Flat(a)[..|a[0]|] == a[0];
    forall n | 0 <= n <= |b[0]| ensures Flat(b)[..n] == b[0][..n] {}
  }

  lemma RestRuns(cfg: TableConfig, blocks: seq<seq<Entry>>)
    requires BlockRun(cfg, blocks) && |blocks| > 1
    ensures BlockRun(cfg, blocks[1..])
  {
    hide ClosedBlock, Grew;
    var rest := blocks[1..];
    forall j | 0 <= j < |rest| - 1 ensures ClosedBlock(cfg, rest[j]) {
      assert blocks[..|blocks| - 1][j + 1] == rest[j];
    }
  }

  lemma FlatEmpty(cfg: TableConfig, blocks: seq<seq<Entry>>)
    requires BlockRun(cfg, blocks)
    ensures Flat(blocks[1..]) == [] <==> |blocks| == 1
  {
    hide Grew, PendingSize;
    if |blocks| > 1 {
      RestRuns(cfg, blocks);
      assert blocks[1] != [] by {
        if |blocks| > 2 { assert ClosedBlock(cfg, blocks[..|blocks| - 1][1]); }
      }
    }
  }

  // How many blocks a table may have.
  predicate Sized(limit: nat, tables: seq<seq<seq<Entry>>>) {
    && tables != [] && tables[|tables| - 1] != [] && 4 * (|tables[|tables| - 1]| - 1) < limit
    && forall t | 0 <= t < |tables| - 1 :: 4 * (|tables[t]| - 1) < limit <= 4 * |tables[t]|
  }

  lemma {:induction false} SameTables(limit: nat, a: seq<seq<seq<Entry>>>, b: seq<seq<seq<Entry>>>)
    requires Sized(limit, a) && Sized(limit, b) && AllBlocks(a) == AllBlocks(b)
    ensures a == b
    decreases |a|
  {
    SameCount(limit, a, b);
    if |a| == 1 {
      assert a[1..] == [] && b[1..] == [];
      assert a[0] + [] == a[0] && b[0] + [] == b[0];
    } else {
      assert a[0] == AllBlocks(a)[..|a[0]|] == b[0];
      assert AllBlocks(a[1..]) == AllBlocks(a)[|a[0]|..] == AllBlocks(b[1..]);
      SameTables(limit, a[1..], b[1..]);
    }
    assert a == [a[0]] + a[1..] && b == [b[0]] + b[1..];
  }

  lemma SameCount(limit: nat, a: seq<seq<seq<Entry>>>, b: seq<seq<seq<Entry>>>)
    requires Sized(limit, a) && Sized(limit, b) && AllBlocks(a) == AllBlocks(b)
    ensures (|a| == 1 <==> |b| == 1) && (|a| > 1 ==> |a[0]| == |b[0]|)
  {
    SomeBlock(limit, a);
    SomeBlock(limit, b);
  }

  lemma SomeBlock(limit: nat, tables: seq<seq<seq<Entry>>>)
    requires Sized(limit, tables)
    ensures |tables| == 1 ==> AllBlocks(tables[1..]) == []
    ensures |tables| > 1 ==> AllBlocks(tables[1..]) != []
  {
    if |tables| > 2 { assert |tables[1]| > 0 || limit == 0; }
  }

  // A table in the making.
  ghost predicate Filling(cfg: TableConfig, limit: nat, parts: seq<seq<Entry>>, pending: seq<Entry>) {
    && ClosedBlocks(cfg, parts) && Grew(cfg, pending) && (parts == [] || 4 * (|parts| - 1) < limit)
    && (pending != [] ==> PendingSize(pending) < cfg.blockSize && 4 * |parts| < limit)
  }

  lemma FillingStart(cfg: TableConfig, limit: nat)
    ensures Filling(cfg, limit, [], [])
  {}

  lemma FillingAdds(cfg: TableConfig, limit: nat, parts: seq<seq<Entry>>, pending: seq<Entry>, e: Entry)
    requires Filling(cfg, limit, parts, pending) && 4 * |parts| < limit
    ensures PendingSize(pending + [e]) < cfg.blockSize ==> Filling(cfg, limit, parts, pending + [e])
    ensures PendingSize(pending + [e]) >= cfg.blockSize ==> Filling(cfg, limit, parts + [pending + [e]], [])
  {
    hide PendingSize;
    var block := pending + [e];
    forall n | 0 < n < |block| ensures PendingSize(block[..n]) < cfg.blockSize {
      assert block[..n] == pending[..n];
      if n == |pending| { assert pending[..n] == pending; }
    }
  }

  lemma FillingEnds(cfg: TableConfig, limit: nat, parts: seq<seq<Entry>>, pending: seq<Entry>)
    requires Filling(cfg, limit, parts, pending)
    ensures var table := parts + (if pending == [] then [] else [pending]);
            && (4 * |parts| >= limit > 0 ==> FullTable(cfg, limit, table))
            && (table != [] ==> LastTable(cfg, limit, table))
  {
    hide PendingSize;
    if pending != [] {
      assert (parts + [pending])[..|parts|] == parts;
    }
  }

  // Midway: the tables written hold the entries up to here, and all of them are full.
  ghost predicate WrittenFull(cfg: TableConfig, limit: nat, es: seq<Entry>, i: nat, files: seq<Data>,
                              tables: seq<seq<seq<Entry>>>) {
    && i <= |es| && Written(cfg, files, tables) && AllEntries(tables) == es[..i]
    && forall t | 0 <= t < |tables| :: FullTable(cfg, limit, tables[t])
  }

  // The loop: every table is well formed, none is empty, and together they hold the entries in order,
  // divided as the sizes demand.
  method BuildTables(cfg: TableConfig, limit: nat, es: seq<Entry>)
    returns (files: seq<Data>, ghost tables: seq<seq<seq<Entry>>>)
    requires es != [] && KeySorted(es) && limit != 0 && RunsFit(cfg, es)
    ensures Written(cfg, files, tables) && AllEntries(tables) == es && Divided(cfg, limit, tables)
  {
    hide BlockBuilder.Valid, GoodBlock, KeySorted, RunsFit, WellFormed, TableOf, UserLess, SstableBuilder.ValidButSize,
         PendingSize, KeyLess, Written, SstableBuilder.Valid, AllEntries, Filling, FullTable, LastTable, WrittenFull,
         Divided, SstableBuilder.AddedTo;
    files, tables := [], [];
    NothingWritten(cfg, limit, es);
    FillingStart(cfg, limit);
    var builder := NewBuilder(cfg, limit, es);
    ghost var i := 0;
    var k := 0;
    while k < |es|
      invariant i <= k <= |es| && (i < k || k == 0)
      invariant WrittenFull(cfg, limit, es, i, files, tables)
      invariant builder.Valid() && !builder.finished && builder.cfg == cfg && builder.sizeLimit == limit
      invariant builder.Entries() == es[i..k] && (i == k ==> builder.parts == [])
      invariant Filling(cfg, limit, builder.parts, builder.pending)
      invariant fresh(builder) && fresh(builder.blockBuilder)
    {
      var ok := AddNext(cfg, builder, es, i, k);
      if !ok {
        if k == i {
          assert false;  // a new builder is below its limit
        }
        files, tables := CloseTable(cfg, builder, files, tables, es, i, k);
        i := k;
        builder := NewBuilder(cfg, limit, es);
        FillingStart(cfg, limit);
        ok := AddNext(cfg, builder, es, i, k);
      }
      k := k + 1;
    }
    files, tables := CloseTable(cfg, builder, files, tables, es, i, k);
    assert es[..k] == es;
  }

  // The table of the run es[i..k] joins those of the entries before it.
  method CloseTable(cfg: TableConfig, builder: SstableBuilder, files: seq<Data>, ghost tables: seq<seq<seq<Entry>>>,
                    ghost es: seq<Entry>, ghost i: nat, ghost k: nat)
    returns (files': seq<Data>, ghost tables': seq<seq<seq<Entry>>>)
    requires RunsFit(cfg, es) && KeySorted(es) && i < k <= |es|
    requires WrittenFull(cfg, builder.sizeLimit, es, i, files, tables)
    requires builder.Valid() && !builder.finished && builder.cfg == cfg && builder.Entries() == es[i..k]
    requires builder.sizeLimit != 0 && Filling(cfg, builder.sizeLimit, builder.parts, builder.pending)
    modifies builder, builder.blockBuilder
    ensures Written(cfg, files', tables') && AllEntries(tables') == es[..k] && Divided(cfg, builder.sizeLimit, tables')
    ensures 4 * |old(builder.parts)| >= builder.sizeLimit ==>
              WrittenFull(cfg, builder.sizeLimit, es, k, files', tables')
  {
    hide RunsFit, KeySorted, Written, AllEntries, SstableBuilder.Valid, WellFormed, TableOf, Filling, FullTable,
         LastTable;
    var file;
    ghost var parts;
    FillingEnds(cfg, builder.sizeLimit, builder.parts, builder.pending);
    file, parts := FinishTable(cfg, builder, es, i, k);
    NoParts(parts);
    files', tables' := Grown(cfg, files, tables, file, parts, es, i, k);
  }

  method Grown(cfg: TableConfig, files: seq<Data>, ghost tables: seq<seq<seq<Entry>>>, file: Data,
               ghost parts: seq<seq<Entry>>,
               ghost es: seq<Entry>, ghost i: nat, ghost k: nat)
    returns (files': seq<Data>, ghost tables': seq<seq<seq<Entry>>>)
    requires Written(cfg, files, tables) && i <= k <= |es| && AllEntries(tables) == es[..i]
    requires WellFormed(cfg, parts) && file == TableOf(cfg, parts) && Flat(parts) == es[i..k]
    ensures Written(cfg, files', tables') && AllEntries(tables') == es[..k] && tables' == tables + [parts]
  {
    hide WellFormed, TableOf;
    AllEntriesAppend(tables, parts);
    assert es[..i] + es[i..k] == es[..k];
    files', tables' := files + [file], tables + [parts];
  }

  lemma NothingWritten(cfg: TableConfig, limit: nat, es: seq<Entry>)
    ensures WrittenFull(cfg, limit, es, 0, [], [])
  {}

  method NewBuilder(cfg: TableConfig, limit: nat, ghost es: seq<Entry>) returns (builder: SstableBuilder)
    requires limit != 0 && RunsFit(cfg, es)
    ensures fresh(builder) && fresh(builder.blockBuilder)
    ensures builder.Valid() && !builder.finished && builder.cfg == cfg && builder.sizeLimit == limit
    ensures builder.parts == [] && builder.pending == [] && builder.Entries() == []
  {
    builder := new SstableBuilder(cfg, limit);
  }

  // The next entry of the run follows the ones before it, and the pending block with it still fits.
  lemma NextFits(cfg: TableConfig, es: seq<Entry>, i: nat, k: nat, flushed: seq<Entry>, pending: seq<Entry>)
    requires RunsFit(cfg, es) && KeySorted(es) && i <= k < |es| && flushed + pending == es[i..k]
    requires pending != [] ==> PendingSize(pending) < cfg.blockSize
    ensures GoodBlock(cfg.block, pending + [es[k]])
    ensures i < k ==>
              es[i..k][k - i - 1].key.user == es[k].key.user || UserLess(es[i..k][k - i - 1].key.user, es[k].key.user)
    ensures es[i..k] + [es[k]] == es[i..k + 1]
  {
    hide GoodBlock, UserLess, PendingSize, KeyLess, FilterOf, FirstUk, LastUk;
    var run := es[k - |pending|..k + 1];
    assert pending == es[i..k][|flushed|..];
    assert pending + [es[k]] == run;
    assert RunFits(cfg, run);
    assert run[..|run| - 1] == pending;
    if i < k {
      KeyLessByUser(es[k - 1].key, es[k].key);
    }
  }

  method AddNext(cfg: TableConfig, builder: SstableBuilder, es: seq<Entry>, ghost i: nat, k: nat) returns (ok: bool)
    requires RunsFit(cfg, es) && KeySorted(es) && i <= k < |es|
    requires builder.Valid() && !builder.finished && builder.cfg == cfg && builder.Entries() == es[i..k]
    modifies builder, builder.blockBuilder
    ensures builder.Valid() && !builder.finished
    ensures (builder.blockBuilder == old(builder.blockBuilder) || fresh(builder.blockBuilder))
    ensures ok <==> 4 * |old(builder.parts)| < builder.sizeLimit
    ensures builder.Entries() == if ok then es[i..k + 1] else es[i..k]
    ensures ok ==> builder.AddedTo(old(builder.parts), old(builder.pending), es[k])
    ensures !ok ==> builder.parts == old(builder.parts) && builder.pending == old(builder.pending)
    ensures Filling(cfg, builder.sizeLimit, old(builder.parts), old(builder.pending)) ==>
              Filling(cfg, builder.sizeLimit, builder.parts, builder.pending)
  {
    hide BlockBuilder.Valid, GoodBlock, UserLess, PendingSize, KeyLess, FilterOf, BlocksImage, FirstUk, LastUk, Flat,
         RunsFit, KeySorted, SstableBuilder.ValidButSize, Filling;
    if Filling(cfg, builder.sizeLimit, builder.parts, builder.pending) && 4 * |builder.parts| < builder.sizeLimit {
      FillingAdds(cfg, builder.sizeLimit, builder.parts, builder.pending, es[k]);
    }
    NextFits(cfg, es, i, k, Flat(builder.parts), builder.pending);
    ok := builder.Add(es[k]);
  }

  /* --------------------------------------------------------------- compaction */

  // compactor::merged_list_to_sst on the result of a merge.
  method MergedListToSst(cfg: TableConfig, limit: nat, merged: seq<Entry>)
    returns (files: seq<Data>, ghost tables: seq<seq<seq<Entry>>>)
    requires merged != [] && Descending(merged) && limit != 0 && RunsFit(cfg, Reverse(merged))
    ensures Written(cfg, files, tables) && AllEntries(tables) == Reverse(merged) && Divided(cfg, limit, tables)
  {
    hide KeyLess, RunsFit, KeySorted, Written, Divided;
    ReverseOrder(merged);
    ReverseReverses(merged);
    files, tables := BuildTables(cfg, limit, Reverse(merged));
  }

  lemma {:induction false} TablesSorted(tables: seq<seq<seq<Entry>>>, t: nat)
    requires KeySorted(AllEntries(tables)) && t < |tables|
    ensures KeySorted(Flat(tables[t]))
    ensures forall e | e in Flat(tables[t]) :: e in AllEntries(tables)
  {
    SortedHalves(Flat(tables[0]), AllEntries(tables[1..]));
    if t > 0 {
      TablesSorted(tables[1..], t - 1);
    }
  }

  lemma {:induction false} TablesApart(tables: seq<seq<seq<Entry>>>, s: nat, t: nat)
    requires KeySorted(AllEntries(tables)) && OnePerUser(AllEntries(tables)) && s < t < |tables|
    ensures forall a, b | a in Flat(tables[s]) && b in Flat(tables[t]) :: UserLess(a.key.user, b.key.user)
  {
    hide KeyLess, UserLess;
    var head, rest := Flat(tables[0]), AllEntries(tables[1..]);
    SortedHalves(head, rest);
    OnePerUserHalves(head, rest);
    if s > 0 {
      TablesApart(tables[1..], s - 1, t - 1);
    } else {
      TablesSorted(tables[1..], t - 1);
      forall a, b | a in head && b in Flat(tables[t]) ensures UserLess(a.key.user, b.key.user) {
        assert tables[1..][t - 1] == tables[t];
        assert b in rest;
        var i :| 0 <= i < |head| && head[i] == a;
        var j :| 0 <= j < |rest| && rest[j] == b;
        assert KeyLess(head[i].key, rest[j].key);
        KeyLessByUser(a.key, b.key);
      }
    }
  }

  lemma OnePerUserHalves(a: seq<Entry>, b: seq<Entry>)
    requires OnePerUser(a + b)
    ensures OnePerUser(a) && OnePerUser(b)
    ensures forall i, j | 0 <= i < |a| && 0 <= j < |b| :: a[i].key.user != b[j].key.user
  {
    var es := a + b;
    forall i, j | 0 <= i < j < |a| ensures a[i].key.user != a[j].key.user { assert es[i] == a[i] && es[j] == a[j]; }
    forall i, j | 0 <= i < j < |b|
      ensures b[i].key.user != b[j].key.user
    {
      assert es[|a| + i] == b[i] && es[|a| + j] == b[j];
    }
    forall i, j | 0 <= i < |a| && 0 <= j < |b|
      ensures a[i].key.user != b[j].key.user
    {
      assert es[i] == a[i] && es[|a| + j] == b[j];
    }
  }

  // Compaction output: merged tables written out lose and duplicate nothing, no table is empty, and
  // the tables' key ranges are disjoint and ascend, which is what sstable::disjoint tests (TableReads.DisjointMeans).
  lemma CompactionOutput(cfg: TableConfig, merged: seq<Entry>, tables: seq<seq<seq<Entry>>>)
    requires Descending(merged) && OnePerUser(merged) && AllEntries(tables) == Reverse(merged)
    requires forall t | 0 <= t < |tables| :: WellFormed(cfg, tables[t])
    ensures forall t | 0 <= t < |tables| :: Flat(tables[t]) != [] && KeySorted(Flat(tables[t]))
    ensures forall s, t | 0 <= s < t < |tables| ::
              && (forall user :: !(Occurs(Flat(tables[s]), user) && Occurs(Flat(tables[t]), user)))
              && (forall a, b | a in Flat(tables[s]) && b in Flat(tables[t]) :: UserLess(a.key.user, b.key.user))
  {
    hide KeyLess, UserLess, KeySorted, WellFormed, Occurs, Flat;
    ReverseOrder(merged);
    ReverseOnePerUser(merged);
    forall t | 0 <= t < |tables| ensures Flat(tables[t]) != [] && KeySorted(Flat(tables[t])) {
      TablesSorted(tables, t);
      TableNonEmpty(cfg, tables[t]);
    }
    forall s, t | 0 <= s < t < |tables|
      ensures forall a, b | a in Flat(tables[s]) && b in Flat(tables[t]) :: UserLess(a.key.user, b.key.user)
      ensures forall user :: !(Occurs(Flat(tables[s]), user) && Occurs(Flat(tables[t]), user))
    {
      TablesApart(tables, s, t);
      forall user ensures !(Occurs(Flat(tables[s]), user) && Occurs(Flat(tables[t]), user)) {
        NotInBoth(Flat(tables[s]), Flat(tables[t]), user);
      }
    }
  }

  lemma {:induction false} SomeTable(tables: seq<seq<seq<Entry>>>, e: Entry) returns (t: nat)
    requires e in AllEntries(tables)
    ensures t < |tables| && e in Flat(tables[t])
  {
    if e in Flat(tables[0]) {
      t := 0;
    } else {
      t := SomeTable(tables[1..], e);
      t := t + 1;
    }
  }

  // Two or more lists merged and written out as these tables.
  ghost predicate MergeWritten(cfg: TableConfig, lists: seq<seq<Entry>>, tables: seq<seq<seq<Entry>>>) {
    && |lists| >= 2 && MergeableTables(lists) && AllEntries(tables) == Reverse(DevideAndConquerMerge(lists))
    && forall t | 0 <= t < |tables| :: WellFormed(cfg, tables[t])
  }

  ghost predicate NoneNewerThan(all: seq<Entry>, user: Data, q: SeqNo) {
    forall e | e in all && e.key.user == user :: e.key.seqNo <= q
  }

  // A lookup in this table finds nothing because the key is not there, or finds the newest of all versions.
  predicate AnswersNewest(all: seq<Entry>, parts: seq<seq<Entry>>, user: Data, q: SeqNo) {
    && NonEmptyParts(parts)
    && match TableGet(parts, user, q)
       case None => !Occurs(Flat(parts), user)
       case Some(e) =>
         && e in all && e.key.user == user
         && forall x | x in all && x.key.user == user :: x.key.seqNo <= e.key.seqNo
  }

  predicate Finds(parts: seq<seq<Entry>>, user: Data, q: SeqNo) {
    NonEmptyParts(parts) && TableGet(parts, user, q).Some?
  }

  // Latest-version lookups see the same before and after: a key of the inputs is found in an output,
  // and whatever an output finds is the newest version among the inputs.
  lemma CompactionLookup(cfg: TableConfig, lists: seq<seq<Entry>>, tables: seq<seq<seq<Entry>>>, user: Data, q: SeqNo)
    requires MergeWritten(cfg, lists, tables) && NoneNewerThan(Flat(lists), user, q)
    ensures forall t | 0 <= t < |tables| :: AnswersNewest(Flat(lists), tables[t], user, q)
    ensures Occurs(Flat(lists), user) <==> exists t :: 0 <= t < |tables| && Finds(tables[t], user, q)
  {
    hide *;
    forall t | 0 <= t < |tables| ensures AnswersNewest(Flat(lists), tables[t], user, q) {
      OutputAnswers(cfg, lists, tables, t, user, q);
    }
    if Occurs(Flat(lists), user) {
      var t := OutputWith(cfg, lists, tables, user, q);
      assert Finds(tables[t], user, q);
    }
    if t :| 0 <= t < |tables| && Finds(tables[t], user, q) {
      FoundOccurs(Flat(lists), tables[t], user, q);
    }
  }

  lemma FoundOccurs(all: seq<Entry>, parts: seq<seq<Entry>>, user: Data, q: SeqNo)
    requires AnswersNewest(all, parts, user, q) && Finds(parts, user, q)
    ensures Occurs(all, user)
  {
    hide TableGet;
  }

  lemma MergedMeans(cfg: TableConfig, lists: seq<seq<Entry>>, tables: seq<seq<seq<Entry>>>, t: nat, e: Entry)
    requires MergeWritten(cfg, lists, tables) && t < |tables| && e in Flat(tables[t])
    ensures e in Flat(lists) && forall x | x in Flat(lists) && x.key.user == e.key.user :: x.key.seqNo <= e.key.seqNo
    ensures KeySorted(Flat(tables[t]))
  {
    hide DevideAndConquerMerge, MergeableTables, Flat, KeyLess, KeySorted, Covered, WellFormed;
    var merged := DevideAndConquerMerge(lists);
    MergeTablesNewest(lists);
    ReverseOrder(merged);
    ReverseReverses(merged);
    TablesSorted(tables, t);
  }

  lemma TableParts(cfg: TableConfig, lists: seq<seq<Entry>>, tables: seq<seq<seq<Entry>>>, t: nat)
    requires MergeWritten(cfg, lists, tables) && t < |tables|
    ensures Flat(tables[t]) != [] && NonEmptyParts(tables[t])
  {
    hide DevideAndConquerMerge, MergeableTables, AllEntries, KeySorted, GoodMeta;
    assert WellFormed(cfg, tables[t]);
    TableNonEmpty(cfg, tables[t]);
  }

  lemma OutputAnswers(cfg: TableConfig, lists: seq<seq<Entry>>, tables: seq<seq<seq<Entry>>>, t: nat, user: Data,
                      q: SeqNo)
    requires MergeWritten(cfg, lists, tables) && NoneNewerThan(Flat(lists), user, q) && t < |tables|
    ensures AnswersNewest(Flat(lists), tables[t], user, q)
  {
    hide MergeWritten, KeySorted, TableGet, NewestIn, Flat, KeyLess;
    var es := Flat(tables[t]);
    TableParts(cfg, lists, tables, t);
    MergedMeans(cfg, lists, tables, t, es[0]);
    forall i | 0 <= i < |es| && es[i].key.user == user ensures es[i].key.seqNo <= q {
      MergedMeans(cfg, lists, tables, t, es[i]);
    }
    LookupNewest(tables[t], user, q);
    match TableGet(tables[t], user, q)
    case None =>
    case Some(e) => MergedMeans(cfg, lists, tables, t, e);
  }

  lemma OutputWith(cfg: TableConfig, lists: seq<seq<Entry>>, tables: seq<seq<seq<Entry>>>, user: Data, q: SeqNo)
    returns (t: nat)
    requires MergeWritten(cfg, lists, tables) && NoneNewerThan(Flat(lists), user, q) && Occurs(Flat(lists), user)
    ensures t < |tables| && Finds(tables[t], user, q)
  {
    hide DevideAndConquerMerge, MergeableTables, KeyLess, TableGet, Flat, WellFormed, Keeps;
    var merged := DevideAndConquerMerge(lists);
    MergeTablesNewest(lists);
    ReverseReverses(merged);
    var i :| 0 <= i < |Flat(lists)| && Flat(lists)[i].key.user == user;
    var k := KeptVersion(merged, Flat(lists), Flat(lists)[i]);
    t := SomeTable(tables, k);
    OutputAnswers(cfg, lists, tables, t, user, q);
    var j :| 0 <= j < |Flat(tables[t])| && Flat(tables[t])[j] == k;
    assert Occurs(Flat(tables[t]), user);
  }

  lemma KeptVersion(r: seq<Entry>, all: seq<Entry>, e: Entry) returns (k: Entry)
    requires Keeps(r, all) && e in all
    ensures k in r && k.key.user == e.key.user
  {
    assert Covered(r, e);
    var i :| 0 <= i < |r| && r[i].key.user == e.key.user;
    k := r[i];
  }

  lemma NotInBoth(a: seq<Entry>, b: seq<Entry>, user: Data)
    requires forall x, y | x in a && y in b :: UserLess(x.key.user, y.key.user)
    ensures !(Occurs(a, user) && Occurs(b, user))
  {
    hide UserLess;
    UserOrderStrictTotal(user, user, user);
  }

  lemma TableNonEmpty(cfg: TableConfig, parts: seq<seq<Entry>>)
    requires WellFormed(cfg, parts)
    ensures Flat(parts) != []
  {
    FewParts(parts);
  }

  lemma ReverseOnePerUser(es: seq<Entry>)
    requires OnePerUser(es)
    ensures OnePerUser(Reverse(es))
  {
    ReverseReverses(es);
  }
}
