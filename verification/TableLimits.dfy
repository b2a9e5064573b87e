/** Limits a caller of the database can keep, under which every length stays within its field,
    whatever run of stored entries forms a block or a table. */
module TableLimits {
  import opened Bytes
  import opened Keys
  import opened Segments
  import opened Blocks
  import opened BlockFiles
  import opened BlockImages
  import opened TableImages
  import opened TableLookup
  import opened TableReads
  import opened TableTheorems
  import opened TableWriting

  // block_size, the bytes of one serialized entry, the number of stored versions.
  const MAX_BLOCK: nat := 0x4_0000
  const MAX_ENTRY: nat := 0x2000_0000
  const MAX_HELD: nat := 0x1000_0000

  // The compressor at worst doubles its input, but for a constant.
  ghost predicate Grows(c: Codec) {
    forall d :: |c.compress(d)| <= 2 * |d| + 0x1_0000
  }

  // Appending one key's filter adds one to nine bytes.
  ghost predicate FilterGrows(policy: FilterPolicy) {
    forall key, rep :: |rep| < |policy.append(key, rep)| <= |rep| + 9
  }

  ghost predicate Roomy(cfg: TableConfig) {
    && Usable(cfg.block) && cfg.blockSize <= MAX_BLOCK && FilterGrows(cfg.filter)
    && (cfg.block.codec.Some? ==> Grows(cfg.block.codec.value))
  }

  predicate SmallEntries(es: seq<Entry>) {
    forall i | 0 <= i < |es| :: ValidEntry(es[i]) && EntrySize(es[i]) <= MAX_ENTRY
  }

  /* ------------------------------------------------------------- sizes of blocks */

  lemma {:induction false} SegsAtLeast(segs: seq<Segment>)
    ensures 6 * |segs| <= |SegsBytes(segs)|
  {
    hide OpenBytes;
    if segs != [] {
      SegsAtLeast(segs[1..]);
      OpenAtLeast(segs[0]);
    }
  }

  lemma OpenAtLeast(s: Segment)
    ensures 2 + |s.prefix| <= |OpenBytes(s)|
  {}

  lemma {:induction false} OffsetsLength(offs: seq<nat>)
    ensures |OffsetsBytes(offs)| == 4 * |offs|
  {
    if offs != [] {
      OffsetsLength(offs[1..]);
    }
  }

  // What an entry adds to a builder that has these segments open, and its end mark with it.
  lemma GrownSize(segs: seq<Segment>, e: Entry)
    requires ValidEntry(e)
    ensures var r := AddItem(segs, SerUser(e.key.user), Item(e));
            && r != [] && |r| <= |segs| + 1
            && |SegsBytes(r)| <= OpenSize(segs) + EntrySize(e) + 20
  {
    hide OpenBytes, SegsBytes, ItemsBytes;
    var pp, item := SerUser(e.key.user), Item(e);
    var r := AddItem(segs, pp, item);
    var n := |r| - 1;
    CloseLast(r);
    if segs != [] && segs[|segs| - 1].prefix == pp {
      ItemAdded(segs[n], item);
      assert r[..n] == segs[..n];
    } else {
      ItemAdded(Segment(pp, []), item);
      assert [] + [item] == [item] && r[..n] == segs;
      NoItemsSize(pp);
      if segs != [] { CloseLast(segs); } else { NoSegs(); }
    }
  }

  // The bytes a builder holds with these segments, the last one open, besides the length field.
  function OpenSize(segs: seq<Segment>): nat {
    if segs == [] then 0 else |SegsBytes(segs[..|segs| - 1])| + |OpenBytes(segs[|segs| - 1])|
  }

  lemma NoSegs()
    ensures SegsBytes([]) == []
  {}

  lemma NoItemsSize(pp: Data)
    ensures |OpenBytes(Segment(pp, []))| == 2 + |pp|
  {}

  lemma ItemAdded(s: Segment, item: Data)
    ensures |OpenBytes(Segment(s.prefix, s.items + [item]))| == |OpenBytes(s)| + 4 + |item|
  {
    hide Be32, Be16;
    ItemsBytesAppend(s.items, item);
  }

  // A block of few segments and bytes keeps every length within its field.
  lemma SmallFits(cfg: Config, segs: seq<Segment>)
    requires Usable(cfg) && (cfg.codec.Some? ==> Grows(cfg.codec.value))
    requires segs != [] && |segs| < 0x1_0000
    requires |SegsBytes(segs)| <= if cfg.codec.Some? then 0x3000_0000 else 0xf000_0000
    ensures Fits(cfg, segs)
  {
    hide SegsBytes, OffsetsBytes, Offset, SpecialIdx, Be32, Lossless;
    SpecialIdxValid(|segs|, cfg.interval);
    var offs := Offsets(segs, SpecialIdx(|segs|, cfg.interval));
    OffsetsLength(offs);
    assert |Content(segs, offs)| <= |SegsBytes(segs)| + 0x4_0002;
  }

  // A run that is one entry, or whose entries before the last stay below the block size, is a good block.
  lemma RunIsBlock(cfg: TableConfig, run: seq<Entry>)
    requires Roomy(cfg) && run != [] && SmallEntries(run)
    requires |run| == 1 || PendingSize(run[..|run| - 1]) < cfg.blockSize
    ensures GoodBlock(cfg.block, run)
  {
    hide Fits, OpenBytes, SegsBytes, Usable, Grows, FilterGrows, AddItem, SerUser, Item, ValidEntry, EntrySize;
    var front, e := run[..|run| - 1], run[|run| - 1];
    var segs := Group(front);
    GroupNonEmpty(front);
    assert OpenSize(segs) <= MAX_BLOCK && |segs| <= 0xffff - 1 by {
      if front != [] {
        FewSegments(segs);
      }
    }
    GrownSize(segs, e);
    SmallFits(cfg.block, Group(run));
  }

  lemma FewSegments(segs: seq<Segment>)
    requires segs != [] && OpenSize(segs) <= MAX_BLOCK
    ensures |segs| <= 0xffff - 1
  {
    hide SegsBytes, OpenBytes;
    SegsAtLeast(segs[..|segs| - 1]);
  }

  /* -------------------------------------------------------------- the meta block */

  lemma {:induction false} FilterLength(policy: FilterPolicy, es: seq<Entry>)
    requires FilterGrows(policy)
    ensures |FilterOf(policy, es)| <= 9 * |es| && (es != [] ==> FilterOf(policy, es) != [])
  {
    if es != [] {
      hide SerUser;
      FilterLength(policy, es[..|es| - 1]);
    }
  }

  lemma MetaFits(cfg: TableConfig, es: seq<Entry>)
    requires Roomy(cfg) && es != [] && |es| <= MAX_HELD && ValidEntry(es[0]) && ValidEntry(es[|es| - 1])
    ensures GoodMeta(cfg, es)
  {
    hide Fits, SerUser, FilterOf, Usable, FilterGrows, Grows, Group, SegsBytes;
    var m := MetaOf(cfg, es);
    FilterLength(cfg.filter, es);
    SerUserLength(es[0]);
    SerUserLength(es[|es| - 1]);
    MetaValid(m);
    MetaGroups(m);
    MetaSize(m);
    MetaUsable(cfg.block);
    SmallFits(MetaConfig(cfg.block), MetaSegments(m));
  }

  lemma MetaUsable(cfg: Config)
    requires Usable(cfg)
    ensures Usable(MetaConfig(cfg)) && MetaConfig(cfg).codec.None?
  {}

  lemma MetaValid(m: Meta)
    requires m.first != [] && m.last != [] && m.filter != []
    requires |m.first| < 0x1_0000 && |m.last| < 0x1_0000 && |m.filter| <= 9 * MAX_HELD
    ensures ValidEntries(MetaEntriesOf(m))
  {}

  lemma MetaSize(m: Meta)
    requires |m.first| < 0x1_0000 && |m.last| < 0x1_0000 && |m.filter| <= 9 * MAX_HELD
    ensures |MetaSegments(m)| == 3 && |SegsBytes(MetaSegments(m))| <= 0xf000_0000
  {
    hide SegsBytes, SerUser, Item;
    MetaPrefixesDiffer();
    var segs := MetaSegments(m);
    ThreeSegments(segs[0], segs[1], segs[2]);
    OneItemSize(segs[0].prefix, Entry(SeqKey(0, LAST_UK), Put(m.last)));
    OneItemSize(segs[1].prefix, Entry(SeqKey(0, FIRST_UK), Put(m.first)));
    OneItemSize(segs[2].prefix, Entry(SeqKey(0, FILTER_UK), Put(m.filter)));
  }

  lemma ThreeSegments(a: Segment, b: Segment, c: Segment)
    ensures |SegsBytes([a, b, c])| == |SegBytes(a)| + |SegBytes(b)| + |SegBytes(c)|
  {
    SegsBytesAppend([], a);
    SegsBytesAppend([a], b);
    SegsBytesAppend([a, b], c);
    assert [] + [a] == [a] && [a] + [b] == [a, b] && [a, b] + [c] == [a, b, c];
  }

  lemma OneItemSize(pp: Data, e: Entry)
    ensures |SegBytes(Segment(pp, [Item(e)]))| == 2 + |pp| + 4 + 8 + ValueSize(e.value) + 4
  {
    hide OpenBytes;
    var item := Item(e);
    NoItemsSize(pp);
    ItemAdded(Segment(pp, []), item);
    assert [] + [item] == [item];
  }

  /* ---------------------------------------------------------------- runs and tables */

  lemma {:induction false} SortedDistinct(es: seq<Entry>)
    requires KeySorted(es)
    ensures |es| == |set e | e in es|
  {
    hide KeyLess;
    if es == [] {
      assert (set e | e in es) == {};
    } else {
      var front, last := es[..|es| - 1], es[|es| - 1];
      SortedDistinct(front);
      assert es == front + [last];
      forall i | 0 <= i < |front| ensures front[i] != last {
        KeyOrderStrictTotal(es[i].key, es[|es| - 1].key, es[i].key);
      }
      assert (set e | e in es) == (set e | e in front) + {last};
    }
  }

  // Sorted entries out of a small set can be written out as they are, however they are cut into blocks
  // and tables.
  lemma LimitsFit(cfg: TableConfig, held: set<Entry>, es: seq<Entry>)
    requires Roomy(cfg) && |held| <= MAX_HELD && (forall e | e in held :: ValidEntry(e) && EntrySize(e) <= MAX_ENTRY)
    requires KeySorted(es) && forall e | e in es :: e in held
    ensures RunsFit(cfg, es)
  {
    hide KeySorted, Roomy, ValidEntry, EntrySize, GoodMeta, PendingSize, GoodBlock;
    SortedDistinct(es);
    var kept := set e | e in es;
    SubsetSize(kept, held);
    RoomyUsable(cfg);
    forall i, j | 0 <= i < j <= |es| ensures RunFits(cfg, es[i..j]) {
      var run := es[i..j];
      forall k | 0 <= k < |run| ensures ValidEntry(run[k]) && EntrySize(run[k]) <= MAX_ENTRY {
        assert run[k] == es[i + k];
      }
      MetaFits(cfg, run);
      if |run| == 1 || PendingSize(run[..|run| - 1]) < cfg.blockSize {
        RunIsBlock(cfg, run);
      }
    }
  }

  lemma RoomyUsable(cfg: TableConfig)
    requires Roomy(cfg)
    ensures Usable(cfg.block)
  {}

  lemma SubsetSize<T>(a: set<T>, b: set<T>)
    requires a <= b
    ensures |a| <= |b|
  {
    var rest := b - a;
    assert b == a + rest;
  }

  // Every entry in a block of its own.
  function Singles(es: seq<Entry>): seq<seq<Entry>> {
    if es == [] then [] else [[es[0]]] + Singles(es[1..])
  }

  lemma {:induction false} SinglesHold(es: seq<Entry>)
    ensures Flat(Singles(es)) == es && |Singles(es)| == |es|
    ensures forall j | 0 <= j < |es| :: Singles(es)[j] == [es[j]]
  {
    if es != [] {
      SinglesHold(es[1..]);
    }
  }

  // Such blocks are a well formed table, whatever the block size.
  lemma SinglesWellFormed(cfg: TableConfig, es: seq<Entry>)
    requires RunsFit(cfg, es) && KeySorted(es) && es != []
    ensures WellFormed(cfg, Singles(es)) && Flat(Singles(es)) == es
  {
    hide KeySorted, GoodMeta, GoodBlock, PendingSize, WellFormed;
    SinglesHold(es);
    forall j | 0 <= j < |es| ensures GoodBlock(cfg.block, [es[j]]) {
      assert RunFits(cfg, es[j..j + 1]);
      assert es[j..j + 1] == [es[j]];
    }
    assert RunFits(cfg, es[0..|es|]);
    assert es[0..|es|] == es;
    FinishedIsWellFormed(cfg, Singles(es));
  }

  /* ------------------------------------------------------ a key split over two blocks */

  // Two versions of one key written to a table: asked for at a number that only the older one has
  // reached, the file misses it exactly when the block size makes the builder split the two.
  method WriteSplitKey(cfg: TableConfig, older: Entry, newer: Entry, q: SeqNo, junk: Junk) returns (file: Data)
    requires Roomy(cfg) && cfg.block.interval > 4 && SmallEntries([older, newer]) && FilterKeeps(cfg, [older, newer])
    requires older.key.user == newer.key.user && older.key.seqNo <= q < newer.key.seqNo
    ensures ParseTable(cfg.block, file, junk).Parsed?
    ensures var t := ParseTable(cfg.block, file, junk).table;
            && EntriesFromBlocks(cfg.block, file, t.extents, junk) == Some([older, newer])
            && GetKvEntry(cfg, file, t, older.key.user, q, junk) ==
               if cfg.blockSize <= PendingSize([older]) then Absent else Found(older)
  {
    hide *;
    SplitKeyMissed(older, newer, q);
    PairFits(cfg, older, newer);
    ghost var parts;
    file, parts := WritePair(cfg, older, newer);
    FirstUserValid(older, newer);
    TableAnswers(cfg, parts, older.key.user, q, junk);
    TableEntries(cfg, parts, junk);
  }

  method WritePair(cfg: TableConfig, older: Entry, newer: Entry) returns (file: Data, ghost parts: seq<seq<Entry>>)
    requires RunsFit(cfg, [older, newer]) && KeySorted([older, newer])
    ensures WellFormed(cfg, parts) && file == TableOf(cfg, parts)
    ensures parts == if cfg.blockSize <= PendingSize([older]) then [[older], [newer]] else [[older, newer]]
  {
    hide *;
    var es := [older, newer];
    var builder := NewBuilder(cfg, 100, es);
    NothingPending(builder);
    var ok := AddNext(cfg, builder, es, 0, 0);
    AddedMeans(builder, [], [], older);
    ghost var open, started := builder.pending, builder.parts;
    ok := AddNext(cfg, builder, es, 0, 1);
    AddedMeans(builder, started, open, newer);
    assert [] + [older] == [older] && [older] + [newer] == [older, newer] && [] + [newer] == [newer];
    assert [] + [[older]] == [[older]] && [] + [[older, newer]] == [[older, newer]]
             && [[older]] + [[newer]] == [[older], [newer]];
    file, parts := FinishTable(cfg, builder, es, 0, 2);
  }

  lemma NothingPending(builder: SstableBuilder)
    requires builder.Entries() == [] && builder.parts == []
    ensures builder.pending == []
  {}

  lemma AddedMeans(builder: SstableBuilder, parts: seq<seq<Entry>>, pending: seq<Entry>, e: Entry)
    requires builder.AddedTo(parts, pending, e)
    ensures PendingSize(pending + [e]) < builder.cfg.blockSize ==>
              builder.parts == parts && builder.pending == pending + [e]
    ensures PendingSize(pending + [e]) >= builder.cfg.blockSize ==>
              builder.parts == parts + [pending + [e]] && builder.pending == []
  {}

  lemma PairFits(cfg: TableConfig, older: Entry, newer: Entry)
    requires Roomy(cfg) && SmallEntries([older, newer]) && KeySorted([older, newer])
    ensures RunsFit(cfg, [older, newer])
  {
    hide Roomy, RunsFit, KeySorted, ValidEntry, EntrySize;
    var es := [older, newer];
    assert es[0] == older && es[1] == newer;
    LimitsFit(cfg, {older, newer}, es);
  }

  lemma FirstUserValid(older: Entry, newer: Entry)
    requires SmallEntries([older, newer])
    ensures ValidUser(older.key.user)
  {
    assert ValidEntry([older, newer][0]);
  }
}
