/** SSTable files (table/sstable_builder.cc): the image of a table, and the builder class that
    writes it block by block. */
module TableImages {
  import opened Bytes
  import opened Keys
  import opened Segments
  import opened Blocks
  import opened BlockFiles
  import opened BlockImages

  const MAGIC: Word := 0x47d6ddc3

  // The user keys of the meta block: last_uk, first_uk and bloom_filter.
  const LAST_UK: Data := [108, 97, 115, 116, 95, 117, 107]
  const FIRST_UK: Data := [102, 105, 114, 115, 116, 95, 117, 107]
  const FILTER_UK: Data := [98, 108, 111, 111, 109, 95, 102, 105, 108, 116, 101, 114]

  /* filter_policy: appending the filter of one serialized user key, and the membership test. */
  datatype FilterPolicy = FilterPolicy(append: (Data, Data) -> Data, mayMatch: (Data, Data) -> bool)

  datatype TableConfig = TableConfig(block: Config, blockSize: nat, filter: FilterPolicy)

  function MetaConfig(cfg: Config): Config {
    cfg.(codec := None)
  }

  function Flat(parts: seq<seq<Entry>>): seq<Entry> {
    if parts == [] then [] else parts[0] + Flat(parts[1..])
  }

  function BlocksImage(cfg: Config, parts: seq<seq<Entry>>): Data
    requires cfg.interval >= 1
  {
    if parts == [] then [] else BuiltImage(cfg, Group(parts[0])) + BlocksImage(cfg, parts[1..])
  }

  function MetaEntries(first: Data, last: Data, filter: Data): seq<Entry> {
    [Entry(SeqKey(0, LAST_UK), Put(last)), Entry(SeqKey(0, FIRST_UK), Put(first)),
     Entry(SeqKey(0, FILTER_UK), Put(filter))]
  }

  function MetaImage(cfg: Config, first: Data, last: Data, filter: Data): Data
    requires cfg.interval >= 1
  {
    BuiltImage(MetaConfig(cfg), Group(MetaEntries(first, last, filter)))
  }

  // Data blocks, meta block, offset of the meta block, magic number.
  function TableImage(cfg: Config, parts: seq<seq<Entry>>, first: Data, last: Data, filter: Data): Data
    requires cfg.interval >= 1
  {
    var data := BlocksImage(cfg, parts);
    data + MetaImage(cfg, first, last, filter) + Be64(|data| % 0x1_0000_0000_0000_0000) + Be32(MAGIC)
  }

  // The filter representation after these entries: one filter appended at each change of user key.
  function FilterOf(policy: FilterPolicy, es: seq<Entry>): Data {
    if es == [] then []
    else
      var front, e := es[..|es| - 1], es[|es| - 1];
      if front != [] && front[|front| - 1].key.user == e.key.user then FilterOf(policy, front)
      else policy.append(SerUser(e.key.user), FilterOf(policy, front))
  }

  function FirstUk(es: seq<Entry>): Data {
    if es == [] then [] else SerUser(es[0].key.user)
  }

  function LastUk(es: seq<Entry>): Data {
    if es == [] then [] else SerUser(es[|es| - 1].key.user)
  }

  // The finished file for these blocks.
  function TableOf(cfg: TableConfig, parts: seq<seq<Entry>>): Data
    requires cfg.block.interval >= 1
  {
    var es := Flat(parts);
    TableImage(cfg.block, parts, FirstUk(es), LastUk(es), FilterOf(cfg.filter, es))
  }

  predicate NonEmptyParts(parts: seq<seq<Entry>>) {
    forall j | 0 <= j < |parts| :: parts[j] != []
  }

  // Entries that can make one block: each well formed, every length within its field.
  predicate GoodBlock(cfg: Config, es: seq<Entry>)
    requires cfg.interval >= 1
  {
    ValidEntries(es) && Fits(cfg, Group(es))
  }

  // The bytes a block builder holds after these entries.
  function PendingSize(es: seq<Entry>): nat
    requires es != []
  {
    var segs := Group(es);
    GroupNonEmpty(es);
    4 + |SegsBytes(segs[..|segs| - 1])| + |OpenBytes(segs[|segs| - 1])|
  }

  predicate GoodBlocks(cfg: Config, parts: seq<seq<Entry>>)
    requires cfg.interval >= 1
  {
    NonEmptyParts(parts) && forall j | 0 <= j < |parts| :: GoodBlock(cfg, parts[j])
  }

  lemma {:induction false} FlatConcat(a: seq<seq<Entry>>, b: seq<seq<Entry>>)
    ensures Flat(a + b) == Flat(a) + Flat(b)
  {
    if a == [] {
      assert a + b == b;
    } else {
      assert (a + b)[1..] == a[1..] + b;
      FlatConcat(a[1..], b);
    }
  }

  lemma FlatAppend(parts: seq<seq<Entry>>, part: seq<Entry>)
    ensures Flat(parts + [part]) == Flat(parts) + part
  {
    FlatConcat(parts, [part]);
    assert Flat([part]) == part + [];
  }

  lemma {:induction false} BlocksImageConcat(cfg: Config, a: seq<seq<Entry>>, b: seq<seq<Entry>>)
    requires cfg.interval >= 1
    ensures BlocksImage(cfg, a + b) == BlocksImage(cfg, a) + BlocksImage(cfg, b)
  {
    hide BuiltImage;
    if a == [] {
      assert a + b == b;
    } else {
      assert (a + b)[1..] == a[1..] + b;
      BlocksImageConcat(cfg, a[1..], b);
    }
  }

  lemma BlocksImageAppend(cfg: Config, parts: seq<seq<Entry>>, part: seq<Entry>)
    requires cfg.interval >= 1
    ensures BlocksImage(cfg, parts + [part]) == BlocksImage(cfg, parts) + BuiltImage(cfg, Group(part))
  {
    hide BuiltImage;
    BlocksImageConcat(cfg, parts, [part]);
    assert BlocksImage(cfg, [part]) == BuiltImage(cfg, Group(part)) + [];
  }

  class SstableBuilder {
    const cfg: TableConfig
    const sizeLimit: nat
    var sizeFlushed: nat
    var firstUk: Data
    var lastUk: Data
    var filterRep: Data
    var blockBuilder: BlockBuilder
    var file: Data
    var appended: nat
    var finished: bool
    ghost var parts: seq<seq<Entry>>   // the entries of the blocks already written
    ghost var pending: seq<Entry>      // the entries in the block builder

    ghost predicate Valid()
      reads this, blockBuilder
    {
      ValidButSize() && (pending != [] ==> PendingSize(pending) < cfg.blockSize)
    }

    ghost predicate ValidButSize()
      reads this, blockBuilder
    {
      && cfg.block.interval >= 1
      && blockBuilder.Valid() && !blockBuilder.finished && blockBuilder.cfg == cfg.block
      && blockBuilder.segs == Group(pending)
      && file == BlocksImage(cfg.block, parts) && appended == |file|
      && sizeFlushed == 4 * |parts|
      && firstUk == FirstUk(Entries()) && lastUk == LastUk(Entries()) && filterRep == FilterOf(cfg.filter, Entries())
      && GoodBlocks(cfg.block, parts) && (pending != [] ==> GoodBlock(cfg.block, pending))
    }

    ghost function Entries(): seq<Entry>
      reads this
    {
      Flat(parts) + pending
    }

    constructor (cfg: TableConfig, sizeLimit: nat)
      requires cfg.block.interval >= 1 && sizeLimit != 0
      ensures Valid() && fresh(blockBuilder) && !finished && parts == [] && pending == [] && this.cfg == cfg
      ensures this.sizeLimit == sizeLimit
    {
      this.cfg, this.sizeLimit := cfg, sizeLimit;
      sizeFlushed, firstUk, lastUk, filterRep := 0, [], [], [];
      file, appended, finished, parts, pending := [], 0, false, [], [];
      blockBuilder := new BlockBuilder(cfg.block);
    }

    predicate ReachTheSizeLimit()
      reads this
    {
      sizeLimit <= sizeFlushed
    }

    // sstable_builder::add. The bytes flushed are counted after the block builder was replaced, so
    // every flush counts the four bytes of an empty block: the limit bounds the number of blocks.
    method Add(e: Entry) returns (ok: bool)
      requires Valid() && !finished
      requires Entries() != [] ==>
                 var last := Entries()[|Entries()| - 1].key.user; last == e.key.user || UserLess(last, e.key.user)
      requires GoodBlock(cfg.block, pending + [e])
      modifies this, blockBuilder
      ensures Valid() && !finished && (blockBuilder == old(blockBuilder) || fresh(blockBuilder))
      ensures ok <==> 4 * |old(parts)| < sizeLimit
      ensures !ok ==> parts == old(parts) && pending == old(pending)
      ensures ok ==> Entries() == old(Entries()) + [e]
      ensures ok ==> AddedTo(old(parts), old(pending), e)
    {
      hide BuiltImage, Group, Fits, BlocksImage, FilterOf, FirstUk, LastUk, SerUser, Item, UserLess, ValidEntry,
           AddItem, GoodBlock, BlockBuilder.Valid, PendingSize, Flat;
      if ReachTheSizeLimit() {
        return false;
      }
      LastPending(parts, pending);
      AddToBlock(e);
      SizeIsPending();
      if blockBuilder.BytesSize() >= cfg.blockSize {
        GroupNonEmpty(pending);
        GroupNonEmpty([]);
        FlushCurrentBlock();
        sizeFlushed := sizeFlushed + blockBuilder.BytesSize();
      }
      return true;
    }

    lemma SizeIsPending()
      requires pending != [] && blockBuilder.Valid() && blockBuilder.segs == Group(pending)
      ensures blockBuilder.BytesSize() == PendingSize(pending)
    {
      hide SegsBytes, OpenBytes, Group;
      GroupNonEmpty(pending);
    }

    // The first half of sstable_builder::add: key bookkeeping and the block builder.
    method AddToBlock(e: Entry)
      requires Valid() && !finished && GoodBlock(cfg.block, pending + [e])
      requires pending != [] ==>
                 var last := pending[|pending| - 1].key.user; last == e.key.user || UserLess(last, e.key.user)
      modifies this`firstUk, this`lastUk, this`filterRep, this`pending, blockBuilder
      ensures ValidButSize() && pending == old(pending) + [e] && Entries() == old(Entries()) + [e]
    {
      hide BuiltImage, Group, Fits, BlocksImage, FilterOf, FirstUk, LastUk, SerUser, Item, UserLess, ValidEntry,
           AddItem, BlockBuilder.Building, Flat;
      assert (pending + [e])[|pending|] == e && ValidEntry(e);
      assert pending != [] ==> (pending + [e])[|pending| - 1] == pending[|pending| - 1];
      NoteKey(e);
      NextSegmentGreater(pending, e);
      blockBuilder.Add(e);
      GroupAdd(pending, e);
      assert Flat(parts) + pending + [e] == Flat(parts) + (pending + [e]);
      pending := pending + [e];
    }

    // The entry joined the pending block, which is written exactly when it has reached the block size.
    ghost predicate AddedTo(oldParts: seq<seq<Entry>>, oldPending: seq<Entry>, e: Entry)
      reads this
    {
      var block := oldPending + [e];
      if PendingSize(block) < cfg.blockSize then parts == oldParts && pending == block
      else parts == oldParts + [block] && pending == []
    }

    // First key, last key and filter of the table take the new entry into account.
    method NoteKey(e: Entry)
      requires firstUk == FirstUk(Entries()) && lastUk == LastUk(Entries())
      requires filterRep == FilterOf(cfg.filter, Entries())
      requires ValidEntry(e)
      modifies this`firstUk, this`lastUk, this`filterRep
      ensures var es := Entries() + [e];
                firstUk == FirstUk(es) && lastUk == LastUk(es) && filterRep == FilterOf(cfg.filter, es)
    {
      hide FilterOf, SerUser, FirstUk, LastUk, ValidEntry;
      AddedKeys(Entries(), e, cfg.filter);
      if firstUk == [] {
        firstUk := SerUser(e.key.user);
      }
      if SerUser(e.key.user) != lastUk {
        filterRep := cfg.filter.append(SerUser(e.key.user), filterRep);
        lastUk := SerUser(e.key.user);
      }
    }

    // sstable_builder::flush_current_block with a block builder that is not empty.
    method FlushCurrentBlock()
      requires blockBuilder.Valid() && !blockBuilder.finished && blockBuilder.cfg == cfg.block
      requires cfg.block.interval >= 1
      requires blockBuilder.segs == Group(pending) && pending != [] && GoodBlock(cfg.block, pending)
      requires GoodBlocks(cfg.block, parts)
      requires file == BlocksImage(cfg.block, parts) && appended == |file|
      modifies this`blockBuilder, this`file, this`appended, this`parts, this`pending, blockBuilder
      ensures fresh(blockBuilder) && blockBuilder.Valid() && !blockBuilder.finished && blockBuilder.cfg == cfg.block
      ensures blockBuilder.segs == [] && |blockBuilder.storage| == 4
      ensures parts == old(parts) + [old(pending)] && pending == [] && GoodBlocks(cfg.block, parts)
      ensures Entries() == old(Entries())
      ensures file == BlocksImage(cfg.block, parts) && appended == |file|
    {
      hide BuiltImage, Fits, BlocksImage, Item, SerUser, AddItem;
      FlatAppend(parts, pending);
      BlocksImageAppend(cfg.block, parts, pending);
      GroupNonEmpty(pending);
      var image := blockBuilder.Finish();
      file := file + image;
      appended := appended + |image|;
      parts, pending := parts + [pending], [];
      blockBuilder := new BlockBuilder(cfg.block);
    }

    // sstable_builder::finish: a table without entries leaves the file empty.
    method Finish()
      requires Valid() && !finished
      requires filterRep != [] ==> GoodBlock(MetaConfig(cfg.block), MetaEntries(firstUk, lastUk, filterRep))
      modifies this, blockBuilder
      ensures finished
      ensures parts == old(parts) + (if old(pending) == [] then [] else [old(pending)])
      ensures Flat(parts) == old(Entries()) && GoodBlocks(cfg.block, parts)
      ensures old(filterRep) == [] ==> file == BlocksImage(cfg.block, parts)
      ensures old(filterRep) != [] ==> file == TableOf(cfg, parts)
    {
      hide BuiltImage, Fits, BlocksImage, FilterOf, Item, SerUser, AddItem, Be64, PendingSize, GoodBlock;
      finished := true;
      ghost var es := Entries();
      GroupNonEmpty(pending);
      if blockBuilder.prefix.Some? {
        FlushCurrentBlock();
      }
      assert Flat(parts) == es by { assert Flat(parts) + [] == Flat(parts); }
      if filterRep == [] {
        return;
      }
      NoFilterWithoutEntries(cfg.filter);
      var meta := WriteMeta();
      var mbo := appended % 0x1_0000_0000_0000_0000;
      file := file + meta;
      file := file + Be64(mbo) + Be32(MAGIC);
      assert file == BlocksImage(cfg.block, parts) + meta + Be64(mbo) + Be32(MAGIC);
    }

    // The meta block: three entries added to a builder without compressor.
    method WriteMeta() returns (image: Data)
      requires cfg.block.interval >= 1
      requires GoodBlock(MetaConfig(cfg.block), MetaEntries(firstUk, lastUk, filterRep))
      ensures image == MetaImage(cfg.block, firstUk, lastUk, filterRep)
    {
      hide BuiltImage, Fits, Item, SerUser, AddItem, UserLess, ValidEntry;
      var es := MetaEntries(firstUk, lastUk, filterRep);
      MetaOrdered(firstUk, lastUk, filterRep);
      var builder := new BlockBuilder(MetaConfig(cfg.block));
      var j := 0;
      while j < 3
        invariant j <= 3 && builder.Valid() && !builder.finished && builder.cfg == MetaConfig(cfg.block)
        invariant fresh(builder)
        invariant builder.segs == Group(es[..j])
      {
        assert UserOrdered(es[..j + 1]);
        NextSegmentGreater(es[..j], es[j]);
        builder.Add(es[j]);
        GroupAdd(es[..j], es[j]);
        assert es[..j] + [es[j]] == es[..j + 1];
        j := j + 1;
      }
      assert es[..j] == es;
      GroupNonEmpty(es);
      assert Group(es) != [];
      image := builder.Finish();
    }
  }

  lemma GroupAdd(es: seq<Entry>, e: Entry)
    ensures Group(es + [e]) == AddItem(Group(es), SerUser(e.key.user), Item(e))
  {
    assert (es + [e])[..|es|] == es;
  }

  lemma GroupNonEmpty(es: seq<Entry>)
    ensures Group(es) == [] <==> es == []
    ensures es != [] ==> Group(es)[|Group(es)| - 1].prefix == SerUser(es[|es| - 1].key.user)
  {}

  // The builder's assertion on the next key holds when user keys do not decrease.
  lemma NextSegmentGreater(es: seq<Entry>, e: Entry)
    requires es != [] ==>
               ValidEntry(es[|es| - 1]) && (es[|es| - 1].key.user == e.key.user
               || UserLess(es[|es| - 1].key.user, e.key.user))
    requires ValidEntry(e)
    ensures var segs := Group(es);
            segs != [] && segs[|segs| - 1].prefix != SerUser(e.key.user) ==>
              Compare(SerUser(e.key.user), segs[|segs| - 1].prefix) == Greater
  {
    hide Compare, Item, UserLess, SerUser, LexLess;
    GroupNonEmpty(es);
    if es != [] {
      var last := es[|es| - 1];
      SerUserLength(last);
      SerUserLength(e);
      SerUserOrder(last.key.user, e.key.user);
      CompareIsLexicographic(SerUser(e.key.user), SerUser(last.key.user));
      LexTotal(SerUser(last.key.user), SerUser(e.key.user));
    }
  }

  lemma AddedKeys(es: seq<Entry>, e: Entry, policy: FilterPolicy)
    requires ValidEntry(e)
    ensures FirstUk(es + [e]) == (if FirstUk(es) == [] then SerUser(e.key.user) else FirstUk(es))
    ensures LastUk(es + [e]) == SerUser(e.key.user)
    ensures FilterOf(policy, es + [e]) ==
            (if SerUser(e.key.user) != LastUk(es) then policy.append(SerUser(e.key.user), FilterOf(policy, es))
             else FilterOf(policy, es))
  {
    assert (es + [e])[..|es|] == es;
    if es != [] {
      assert SerUser(es[|es| - 1].key.user) == SerUser(e.key.user) ==> es[|es| - 1].key.user == e.key.user by {
        hide UserLess;
        if SerUser(es[|es| - 1].key.user) == SerUser(e.key.user) {
          assert SerUser(es[|es| - 1].key.user)[2..] == es[|es| - 1].key.user;
          assert SerUser(e.key.user)[2..] == e.key.user;
        }
      }
    }
  }

  lemma NoFilterWithoutEntries(policy: FilterPolicy)
    ensures FilterOf(policy, []) == []
  {}

  lemma LastPending(parts: seq<seq<Entry>>, pending: seq<Entry>)
    ensures pending != [] ==> (Flat(parts) + pending)[|Flat(parts) + pending| - 1] == pending[|pending| - 1]
  {}

  lemma MetaOrdered(first: Data, last: Data, filter: Data)
    ensures UserOrdered(MetaEntries(first, last, filter))
  {}
}
