/** What reading a finished SSTable gives: its framing, its lookups and its entries, for the
    file that sstable_builder wrote (table/sstable.cc against table/sstable_builder.cc). */
module TableTheorems {
  import opened Bytes
  import opened Keys
  import opened Segments
  import opened Blocks
  import opened BlockFiles
  import opened BlockImages
  import opened TableImages
  import opened TableLookup
  import opened TableReads

  // The blocks of one table: non-empty, of entries in key order, every length within its field.
  ghost predicate WellFormed(cfg: TableConfig, parts: seq<seq<Entry>>) {
    && Usable(cfg.block) && parts != [] && GoodBlocks(cfg.block, parts) && KeySorted(Flat(parts))
    && |BlocksImage(cfg.block, parts)| < 0x1_0000_0000_0000_0000
    && GoodMeta(cfg, Flat(parts))
  }

  function MetaOf(cfg: TableConfig, es: seq<Entry>): Meta {
    Meta(FirstUk(es), LastUk(es), FilterOf(cfg.filter, es))
  }

  function MetaEntriesOf(m: Meta): seq<Entry> {
    MetaEntries(m.first, m.last, m.filter)
  }

  ghost predicate GoodMeta(cfg: TableConfig, es: seq<Entry>)
    requires cfg.block.interval >= 1
  {
    GoodBlock(MetaConfig(cfg.block), MetaEntriesOf(MetaOf(cfg, es)))
  }

  // The filter never rejects a key it was given.
  ghost predicate FilterKeeps(cfg: TableConfig, es: seq<Entry>) {
    forall i | 0 <= i < |es| :: cfg.filter.mayMatch(SerUser(es[i].key.user), FilterOf(cfg.filter, es))
  }

  // One filter after the other, one for each of the keys.
  function Appended(policy: FilterPolicy, users: seq<Data>): Data {
    if users == [] then [] else policy.append(SerUser(users[|users| - 1]), Appended(policy, users[..|users| - 1]))
  }

  // The filter of a table has every user key of its entries, each once, in ascending order.
  lemma {:induction false} FilterOfMeans(policy: FilterPolicy, es: seq<Entry>) returns (users: seq<Data>)
    requires KeySorted(es)
    ensures FilterOf(policy, es) == Appended(policy, users)
    ensures forall user :: user in users <==> Occurs(es, user)
    ensures forall i, j | 0 <= i < j < |users| :: UserLess(users[i], users[j])
    ensures es == [] ==> users == []
    ensures es != [] ==> users != [] && users[|users| - 1] == es[|es| - 1].key.user
  {
    hide KeyLess, UserLess, SerUser;
    if es == [] {
      users := [];
      assert forall user :: !Occurs(es, user);
    } else {
      var front, e := es[..|es| - 1], es[|es| - 1];
      users := FilterOfMeans(policy, front);
      OccursSnoc(front, e);
      assert front + [e] == es;
      if front == [] || front[|front| - 1].key.user != e.key.user {
        var more := users + [e.key.user];
        assert more[..|users|] == users;
        if front != [] {
          assert KeyLess(es[|front| - 1].key, es[|front|].key);
          KeyLessByUser(es[|front| - 1].key, es[|front|].key);
          forall i | 0 <= i < |users| ensures UserLess(users[i], e.key.user) {
            UserLessThrough(users[i], users[|users| - 1], e.key.user);
          }
        }
        users := more;
      } else {
        assert users[|users| - 1] == e.key.user;
      }
    }
  }

  lemma OccursSnoc(front: seq<Entry>, e: Entry)
    ensures forall user :: Occurs(front + [e], user) <==> Occurs(front, user) || user == e.key.user
  {
    var es := front + [e];
    assert es[|front|] == e;
    forall user ensures Occurs(es, user) <==> Occurs(front, user) || user == e.key.user {
      if Occurs(front, user) {
        var i :| 0 <= i < |front| && front[i].key.user == user;
        assert es[i].key.user == user;
      }
    }
  }

  lemma UserLessThrough(a: Data, b: Data, c: Data)
    requires (a == b || UserLess(a, b)) && UserLess(b, c)
    ensures UserLess(a, c)
  {
    hide UserLess;
    if a != b { UserOrderStrictTotal(a, b, c); }
  }

  function Extents(cfg: Config, parts: seq<seq<Entry>>, start: nat): seq<Extent>
    requires cfg.interval >= 1
  {
    if parts == [] then []
    else
      var n := |BuiltImage(cfg, Group(parts[0]))|;
      [Extent(start, n)] + Extents(cfg, parts[1..], start + n)
  }

  /* ----------------------------------------------------------------- framing */

  lemma ImageLength(cfg: Config, es: seq<Entry>)
    requires Usable(cfg) && es != [] && GoodBlock(cfg, es)
    ensures 9 <= |BuiltImage(cfg, Group(es))| < 0x1_0000_0000
    ensures U32(BuiltImage(cfg, Group(es)), 0) == |BuiltImage(cfg, Group(es))|
  {
    hide Frame, Group, Content, Offsets, U32, SpecialIdx;
    var segs := Group(es);
    var content := Content(segs, Offsets(segs, SpecialIdx(|segs|, cfg.interval)));
    FrameSize(cfg, segs);
    if cfg.codec.None? {
      FrameLayout(content, 0, cfg.crc);
    } else {
      FrameLayout(cfg.codec.value.compress(content), 1, cfg.crc);
    }
  }

  lemma ReadAt(mem: Data, at: nat, piece: Data)
    requires At(mem, at, piece) && |piece| >= 4
    ensures at + 4 <= |mem| && U32(mem, at) == U32(piece, 0)
  {
    forall k | 0 <= k < 4 ensures mem[at + k] == piece[k] {
      assert mem[at..at + |piece|][k] == piece[k];
    }
  }

  // The block lengths tile [0, MBO): walking them finds exactly the written blocks.
  lemma {:induction false} OffsetsTile(cfg: Config, parts: seq<seq<Entry>>, file: Data, start: nat)
    requires Usable(cfg) && GoodBlocks(cfg, parts)
    requires At(file, start, BlocksImage(cfg, parts))
    ensures BlockOffsets(file, start, start + |BlocksImage(cfg, parts)|) == Some(Extents(cfg, parts, start))
    decreases |parts|
  {
    hide BuiltImage, At, U32, Fits, Group;
    if parts != [] {
      var image, rest := BuiltImage(cfg, Group(parts[0])), BlocksImage(cfg, parts[1..]);
      assert GoodBlock(cfg, parts[0]);
      ImageLength(cfg, parts[0]);
      AtSplit(file, start, image, rest);
      ReadAt(file, start, image);
      OffsetsTile(cfg, parts[1..], file, start + |image|);
    }
  }

  lemma {:induction false} ExtentAt(cfg: Config, parts: seq<seq<Entry>>, file: Data, start: nat, j: nat)
    requires cfg.interval >= 1 && At(file, start, BlocksImage(cfg, parts)) && j < |parts|
    ensures |Extents(cfg, parts, start)| == |parts|
    ensures var x := Extents(cfg, parts, start)[j];
            x.length == |BuiltImage(cfg, Group(parts[j]))| && At(file, x.offset, BuiltImage(cfg, Group(parts[j])))
    decreases |parts|
  {
    hide BuiltImage, At, Group;
    var image, rest := BuiltImage(cfg, Group(parts[0])), BlocksImage(cfg, parts[1..]);
    AtSplit(file, start, image, rest);
    if |parts| > 1 {
      ExtentAt(cfg, parts[1..], file, start + |image|, if j == 0 then 0 else j - 1);
    }
  }

  /* --------------------------------------------------------------- meta block */

  // The three segments of the meta block.
  function MetaSegments(m: Meta): seq<Segment> {
    [Segment(SerUser(LAST_UK), [Item(Entry(SeqKey(0, LAST_UK), Put(m.last)))]),
     Segment(SerUser(FIRST_UK), [Item(Entry(SeqKey(0, FIRST_UK), Put(m.first)))]),
     Segment(SerUser(FILTER_UK), [Item(Entry(SeqKey(0, FILTER_UK), Put(m.filter)))])]
  }

  lemma MetaPrefixesDiffer()
    ensures |SerUser(LAST_UK)| == 9 && |SerUser(FIRST_UK)| == 10 && |SerUser(FILTER_UK)| == 14
  {}

  lemma MetaGroups(m: Meta)
    ensures Group(MetaEntriesOf(m)) == MetaSegments(m)
  {
    hide Item, SerUser;
    MetaPrefixesDiffer();
    var es := MetaEntriesOf(m);
    assert es[..2][..1] == es[..1] && es[..1][..0] == [];
    assert Group(es[..1]) == MetaSegments(m)[..1];
    assert es[..2][1] == es[1];
    assert Group(es[..2]) == MetaSegments(m)[..2];
  }

  lemma FrontOfItem(e: Entry)
    requires ValidEntry(e) && e.value.Put?
    ensures FrontValue([Item(e)]) == Some(e.value.data)
  {
    hide DecodeItem, ValidEntry;
    ItemDecodes(e);
    ItemLength(e);
  }

  lemma ItemLength(e: Entry)
    requires ValidEntry(e) && DecodeItem(e.key.user, Item(e)) == Some(e)
    ensures |Item(e)| >= 4 && ParseValue(Item(e)[4..]) == Some(e.value)
  {}

  // Collecting over stored segments collects over the segments.
  function CollectSegments(segs: seq<Segment>, m: Meta): Option<Meta> {
    if segs == [] then Some(m)
    else
      match NoteMeta(m, segs[0].prefix, segs[0].items)
      case None => None
      case Some(m') => CollectSegments(segs[1..], m')
  }

  lemma {:induction false} CollectIsOverSegments(mem: Data, segs: seq<Segment>, a: nat, m: Meta)
    requires At(mem, 4, SegsBytes(segs)) && ValidSegments(segs) && a <= |segs|
    ensures CollectMeta(mem, Offset(segs, 4, a), Offset(segs, 4, |segs|), m) == CollectSegments(segs[a..], m)
    decreases |segs| - a
  {
    hide At, Offset, ParseSegment, SegBytes, NoteMeta;
    if a < |segs| {
      OffsetMonotone(segs, 4, a + 1, |segs|);
      OffsetStep(segs, 4, a);
      ParseAt(mem, segs, 4, a, Offset(segs, 4, |segs|));
      assert segs[a..][0] == segs[a] && segs[a..][1..] == segs[a + 1..];
      var noted := NoteMeta(m, segs[a].prefix, segs[a].items);
      if noted.Some? {
        CollectIsOverSegments(mem, segs, a + 1, noted.value);
      }
    }
  }

  lemma MetaCollects(m: Meta)
    requires ValidEntries(MetaEntriesOf(m))
    ensures CollectSegments(MetaSegments(m), Meta([], [], [])) == Some(m)
  {
    hide Item, SerUser, ValidEntry, FrontValue;
    var es, segs := MetaEntriesOf(m), MetaSegments(m);
    FrontOfItem(es[0]);
    FrontOfItem(es[1]);
    FrontOfItem(es[2]);
    MetaPrefixesDiffer();
    var m1, m2 := Meta([], m.last, []), Meta(m.first, m.last, []);
    assert NoteMeta(Meta([], [], []), segs[0].prefix, segs[0].items) == Some(m1);
    assert NoteMeta(m1, segs[1].prefix, segs[1].items) == Some(m2);
    assert segs[1..][1..] == [segs[2]] && segs[1..][0] == segs[1];
    assert [segs[2]][1..] == [];
    assert CollectSegments([segs[2]], m2) == Some(m);
  }

  // The meta block has a single special segment exactly for intervals above four.
  lemma MetaInterval(interval: nat)
    requires interval >= 1
    ensures |SpecialIdx(3, interval)| == 1 <==> interval > 4
  {
    OneSpecialSegment(3, interval);
    if interval <= 4 {
      assert interval == 1 || interval == 2 || interval == 3 || interval == 4;
      assert Special(1, 1) && Special(2, 2) && Special(1, 3) && Special(2, 4);
    } else {
      assert 3 % interval == 3 && 4 % interval == 4;
      assert !Special(1, interval) && !Special(2, interval);
    }
  }

  lemma TableBytes(cfg: TableConfig, parts: seq<seq<Entry>>)
    requires WellFormed(cfg, parts)
    ensures var data, m := BlocksImage(cfg.block, parts), MetaOf(cfg, Flat(parts));
            TableOf(cfg, parts) == data + MetaImage(cfg.block, m.first, m.last, m.filter) + Be64(|data|) + Be32(MAGIC)
  {
    hide BuiltImage, BlocksImage, Be64, Be32, FilterOf, Group, FirstUk, LastUk, MetaImage;
  }

  lemma TableLayout(cfg: TableConfig, parts: seq<seq<Entry>>)
    requires WellFormed(cfg, parts)
    ensures var file, data := TableOf(cfg, parts), BlocksImage(cfg.block, parts);
            var m := MetaOf(cfg, Flat(parts));
            var meta := MetaImage(cfg.block, m.first, m.last, m.filter);
            && |file| == |data| + |meta| + 12 && file[|data|..|file| - 12] == meta
            && At(file, 0, data) && U64(file, |file| - 12) == |data| && U32(file, |file| - 4) == MAGIC
  {
    hide MetaImage, BlocksImage, Be64, Be32, U64, U32, MetaOf, KeySorted, GoodBlock, GoodMeta, FirstUk, LastUk,
         FilterOf;
    var file, data := TableOf(cfg, parts), BlocksImage(cfg.block, parts);
    var m := MetaOf(cfg, Flat(parts));
    var meta := MetaImage(cfg.block, m.first, m.last, m.filter);
    TableBytes(cfg, parts);
    assert file == data + (meta + (Be64(|data|) + Be32(MAGIC)));
    assert file[|data|..|file| - 12] == meta;
    assert file[0..|data|] == data;
    assert file[|file| - 12..|file| - 4] == Be64(|data|);
    ReadU64(file, |file| - 12, |data|);
    assert file[|file| - 4..|file|] == Be32(MAGIC);
    ReadU32(file, |file| - 4, MAGIC);
  }

  lemma MetaBlockOpens(cfg: TableConfig, m: Meta, junk: Data)
    requires Usable(cfg.block) && GoodBlock(MetaConfig(cfg.block), MetaEntriesOf(m))
    ensures var storage := MetaImage(cfg.block, m.first, m.last, m.filter);
            var content := StoredContent(storage);
            && content.Some? && |content.value| + 9 == |storage|
            && cfg.block.crc(content.value) == U32(storage, |content.value| + 5)
            && var b := OpenBlock(storage + junk, |storage|);
            && b.Some? && Laid(storage + junk, MetaSegments(m), SpecialIdx(3, cfg.block.interval), b.value)
  {
    hide BuiltImage, Frame, Content, Group, OpenBlock, Laid, Offsets, SpecialIdx, U32, ValidEntry, UserLess;
    var mcfg, es := MetaConfig(cfg.block), MetaEntriesOf(m);
    var storage := MetaImage(cfg.block, m.first, m.last, m.filter);
    MetaOrdered(m.first, m.last, m.filter);
    GroupAscends(es);
    MetaGroups(m);
    StoredBlockOpens(mcfg, Group(es), junk);
    ImageIsFrame(mcfg, Group(es), junk);
  }

  // An uncompressed image loads to itself.
  lemma ImageIsFrame(cfg: Config, segs: seq<Segment>, junk: Data)
    requires Usable(cfg) && cfg.codec.None? && Fits(cfg, segs)
    ensures var storage := BuiltImage(cfg, segs);
            var content := StoredContent(storage);
            && content.Some? && |content.value| + 9 == |storage|
            && cfg.crc(content.value) == U32(storage, |content.value| + 5)
            && LoadBlock(cfg, storage, junk) == Some((storage + junk, |storage|))
  {
    hide Frame, Content, Offsets, U32, SpecialIdx;
    FrameLayout(Content(segs, Offsets(segs, SpecialIdx(|segs|, cfg.interval))), 0, cfg.crc);
  }

  lemma MetaReads(cfg: TableConfig, parts: seq<seq<Entry>>, junk: Junk)
    requires WellFormed(cfg, parts)
    ensures |TableOf(cfg, parts)| >= 12
    ensures ReadMeta(cfg.block, TableOf(cfg, parts), junk) ==
            if cfg.block.interval > 4 then Some(MetaOf(cfg, Flat(parts))) else None
  {
    hide TableOf, MetaImage, OpenBlock, CollectMeta, SpecialIdx, U64, U32, StoredContent, FilterOf, FirstUk, LastUk,
         Offset, At, SegsBytes, MetaSegments, KeySorted, BlocksImage;
    var m := MetaOf(cfg, Flat(parts));
    TableLayout(cfg, parts);
    var behind := junk(|BlocksImage(cfg.block, parts)|);
    MetaBlockOpens(cfg, m, behind);
    MetaInterval(cfg.block.interval);
    var storage := MetaImage(cfg.block, m.first, m.last, m.filter);
    MetaCollects(m);
    CollectIsOverSegments(storage + behind, MetaSegments(m), 0, Meta([], [], []));
    assert MetaSegments(m)[0..] == MetaSegments(m);
    MetaCount(m);
  }

  lemma MetaCount(m: Meta)
    ensures |MetaSegments(m)| == 3
  {}

  // SSTable framing: opening a finished table gives back its first and last key, its filter and
  // the extents of its blocks - exactly when the segment interval exceeds four, because the reader
  // insists on a single special segment in the meta block.
  lemma TableOpens(cfg: TableConfig, parts: seq<seq<Entry>>, junk: Junk)
    requires WellFormed(cfg, parts)
    ensures ParseTable(cfg.block, TableOf(cfg, parts), junk) ==
            if cfg.block.interval > 4 then Parsed(Table(MetaOf(cfg, Flat(parts)), Extents(cfg.block, parts, 0)))
            else Aborted
  {
    hide TableOf, ReadMeta, U64, U32, FilterOf, KeySorted, BlockOffsets, Extents, BlocksImage, ValidEntry;
    MetaReads(cfg, parts, junk);
    TableLayout(cfg, parts);
    OffsetsTile(cfg.block, parts, TableOf(cfg, parts), 0);
    MetaNonEmpty(cfg, Flat(parts));
  }

  lemma MetaNonEmpty(cfg: TableConfig, es: seq<Entry>)
    requires cfg.block.interval >= 1 && GoodMeta(cfg, es)
    ensures var m := MetaOf(cfg, es); m.first != [] && m.last != [] && m.filter != []
  {
    hide Fits, Group, SerUser, FilterOf, FirstUk, LastUk;
    var es' := MetaEntriesOf(MetaOf(cfg, es));
    assert ValidEntry(es'[0]) && ValidEntry(es'[1]) && ValidEntry(es'[2]);
  }

  /* ------------------------------------------------------------------- lookups */

  lemma PartOrdered(cfg: TableConfig, parts: seq<seq<Entry>>, j: nat)
    requires WellFormed(cfg, parts) && j < |parts|
    ensures ValidEntries(parts[j]) && UserOrdered(parts[j]) && Fits(cfg.block, Group(parts[j])) && KeySorted(parts[j])
  {
    hide UserLess, KeyLess, Fits, Group, BlocksImage, GoodMeta;
    assert GoodBlock(cfg.block, parts[j]);
    PartsSorted(parts, j);
    forall a, b | 0 <= a < b < |parts[j]|
      ensures parts[j][a].key.user == parts[j][b].key.user || UserLess(parts[j][a].key.user, parts[j][b].key.user)
    {
      KeyLessByUser(parts[j][a].key, parts[j][b].key);
    }
  }

  lemma GroupFirst(es: seq<Entry>)
    requires es != []
    ensures Group(es) != [] && Group(es)[0].prefix == SerUser(es[0].key.user)
    decreases |es|
  {
    hide Item, SerUser;
    if |es| > 1 {
      GroupFirst(es[..|es| - 1]);
    } else {
      assert es[..0] == [];
    }
  }

  // A loaded block that answers this user key, and enumerates, as the entries say.
  predicate BlockYields(r: Option<(Data, BlockView)>, es: seq<Entry>, user: Data) {
    && r.Some? && es != []
    && var (mem, b) := r.value;
    && b.specials != [] && b.first == SerUser(es[0].key.user)
    && SearchYields(Get(mem, b, SerUser(user)), es, user)
    && EntriesOf(mem, b.specials[0], b.metaAt) == Some(es)
  }

  predicate SearchYields(r: Lookup, es: seq<Entry>, user: Data) {
    && (ItemsOf(es, user) == [] ==> r == Miss)
    && (ItemsOf(es, user) != [] ==> r.Hit? && r.view.prefix == SerUser(user) && r.view.items == ItemsOf(es, user))
  }

  // The j-th entry of the offset table is where the j-th block lies.
  lemma BlockStored(cfg: TableConfig, parts: seq<seq<Entry>>, j: nat, junk: Junk)
    requires WellFormed(cfg, parts) && j < |parts|
    ensures |Extents(cfg.block, parts, 0)| == |parts|
    ensures BlockAt(cfg.block, TableOf(cfg, parts), Extents(cfg.block, parts, 0)[j], junk) ==
              OpenStored(cfg.block, BuiltImage(cfg.block, Group(parts[j])),
              junk(Extents(cfg.block, parts, 0)[j].offset))
  {
    hide TableOf, OpenStored, Group, GoodBlock, KeySorted, FilterOf, GoodMeta, BuiltImage, At;
    var file, x := TableOf(cfg, parts), Extents(cfg.block, parts, 0);
    TableLayout(cfg, parts);
    ExtentAt(cfg.block, parts, file, 0, j);
    AtSlice(file, x[j].offset, BuiltImage(cfg.block, Group(parts[j])));
  }

  lemma BlockOpened(cfg: Config, es: seq<Entry>, user: Data, junk: Data)
    requires Usable(cfg) && es != [] && GoodBlock(cfg, es) && ValidUser(user) && UserOrdered(es)
    ensures BlockYields(OpenStored(cfg, BuiltImage(cfg, Group(es)), junk), es, user)
  {
    hide Get, EntriesOf, OpenStored, Group, Fits, ItemsOf, SerUser, UserLess, ValidEntry, BuiltImage, Offset;
    BlockSearch(cfg, es, user, junk);
    BlockRoundTrip(cfg, es, junk);
    GroupAscends(es);
    StoredBlockOpens(cfg, Group(es), junk);
    GroupFirst(es);
  }

  // The j-th block of the file opens, and answers a key as its entries say.
  lemma BlockAnswers(cfg: TableConfig, parts: seq<seq<Entry>>, j: nat, user: Data, junk: Junk)
    requires WellFormed(cfg, parts) && j < |parts| && ValidUser(user)
    ensures |Extents(cfg.block, parts, 0)| == |parts|
    ensures BlockYields(BlockAt(cfg.block, TableOf(cfg, parts), Extents(cfg.block, parts, 0)[j], junk), parts[j], user)
  {
    hide TableOf, BlockAt, BlockYields, Extents, GoodBlock, KeySorted, GoodMeta, BlocksImage;
    PartOrdered(cfg, parts, j);
    BlockStored(cfg, parts, j, junk);
    BlockOpened(cfg.block, parts[j], user, junk(Extents(cfg.block, parts, 0)[j].offset));
  }

  lemma AtSlice(mem: Data, at: nat, piece: Data)
    requires At(mem, at, piece)
    ensures at + |piece| <= |mem| && mem[at..at + |piece|] == piece
  {}

  // The segment a table search ends with, told by the entries of the chosen block.
  predicate Answers(r: Lookup, parts: seq<seq<Entry>>, pick: Option<nat>, user: Data)
    requires pick.Some? ==> pick.value < |parts|
  {
    match pick
    case None => r == Miss
    case Some(j) => SearchYields(r, parts[j], user)
  }

  lemma {:induction false} WalkPicks(cfg: TableConfig, parts: seq<seq<Entry>>, j: nat, user: Data, m: Meta, junk: Junk)
    requires WellFormed(cfg, parts) && j < |parts| && ValidUser(user)
    ensures |Extents(cfg.block, parts, 0)| == |parts|
    ensures Answers(SegmentFrom(cfg.block, TableOf(cfg, parts), Table(m, Extents(cfg.block, parts, 0)), j,
                                SerUser(user), junk),
                    parts, PickFrom(parts, j, user), user)
    decreases |parts| - j
  {
    hide TableOf, Get, BlockAt, SerUser, UserLess, KeySorted, Extents, BlocksImage, GoodMeta, ItemsOf, EntriesOf,
         SearchYields, GoodBlock, Compare;
    BlockAnswers(cfg, parts, j, user, junk);
    FirstCompares(cfg, parts, j, user);
    if j + 1 < |parts| {
      BlockAnswers(cfg, parts, j + 1, user, junk);
      FirstCompares(cfg, parts, j + 1, user);
      WalkPicks(cfg, parts, j + 1, user, m, junk);
    }
  }

  lemma FirstCompares(cfg: TableConfig, parts: seq<seq<Entry>>, j: nat, user: Data)
    requires WellFormed(cfg, parts) && j < |parts| && ValidUser(user)
    ensures Compare(SerUser(user), SerUser(parts[j][0].key.user)) == Less <==> UserLess(user, parts[j][0].key.user)
  {
    hide SerUser, UserLess, KeySorted, BlocksImage, GoodMeta, Compare, Fits, LexLess;
    PartOrdered(cfg, parts, j);
    SerUserLength(parts[j][0]);
    SerUserOrder(user, parts[j][0].key.user);
    CompareIsLexicographic(SerUser(user), SerUser(parts[j][0].key.user));
    LexTotal(SerUser(user), SerUser(user));
  }

  lemma {:induction false} NewestItemIsNewestIn(es: seq<Entry>, user: Data, q: SeqNo)
    requires ValidEntries(es)
    ensures NewestItem(user, ItemsOf(es, user), q) ==
              (match NewestIn(es, user, q) case None => Absent case Some(e) => Found(e))
  {
    if es != [] {
      hide Item, DecodeItem, ValidEntry;
      var front, e := es[..|es| - 1], es[|es| - 1];
      NewestItemIsNewestIn(front, user, q);
      var items := ItemsOf(front, user);
      assert (items + [Item(e)])[..|items|] == items && items + [] == items;
      if e.key.user == user {
        ItemDecodes(e);
      }
    }
  }

  // SSTable lookup on the file: the bytes answer as the blocks' entries do, whatever the buffers hold
  // behind the blocks, for every key and query, when the filter keeps the keys it was given.
  lemma TableAnswers(cfg: TableConfig, parts: seq<seq<Entry>>, user: Data, q: SeqNo, junk: Junk)
    requires WellFormed(cfg, parts) && cfg.block.interval > 4 && FilterKeeps(cfg, Flat(parts)) && ValidUser(user)
    ensures var file := TableOf(cfg, parts);
            && ParseTable(cfg.block, file, junk).Parsed?
            && GetKvEntry(cfg, file, ParseTable(cfg.block, file, junk).table, user, q, junk) ==
               (match TableGet(parts, user, q) case None => Absent case Some(e) => Found(e))
  {
    hide TableOf, SerUser, KeySorted, Extents, BlocksImage, GoodMeta, ItemsOf, NewestItem, NewestIn, SegmentFrom,
         UserLess, ParseTable, FilterOf, Occurs, PickFrom, Fits, Group, ValidEntry;
    TableOpens(cfg, parts, junk);
    SerUserFramed(user);
    TableGetFromLast(parts, user, q);
    LastHoldingMeans(parts, user);
    WalkPicks(cfg, parts, 0, user, MetaOf(cfg, Flat(parts)), junk);
    var pick := PickFrom(parts, 0, user);
    if !cfg.filter.mayMatch(SerUser(user), FilterOf(cfg.filter, Flat(parts))) {
      match LastHolding(parts, user)
      case None =>
      case Some(l) => FilteredOut(cfg, parts, l, user);
    } else if pick.Some? {
      PartOrdered(cfg, parts, pick.value);
      SearchedItems(parts[pick.value], user, q);
    }
  }

  // Without items nothing is found, and none of the entries is a version of the key.
  lemma SearchedItems(es: seq<Entry>, user: Data, q: SeqNo)
    requires ValidEntries(es)
    ensures NewestItem(user, ItemsOf(es, user), q) ==
              (match NewestIn(es, user, q) case None => Absent case Some(e) => Found(e))
    ensures ItemsOf(es, user) == [] ==> NewestIn(es, user, q) == None
  {
    hide ItemsOf, NewestItem, NewestIn, ValidEntries;
    NewestItemIsNewestIn(es, user, q);
    NoItems(user, q);
  }

  lemma NoItems(user: Data, q: SeqNo)
    ensures NewestItem(user, [], q) == Absent
  {}

  lemma FilteredOut(cfg: TableConfig, parts: seq<seq<Entry>>, l: nat, user: Data)
    requires KeySorted(Flat(parts)) && l < |parts| && Occurs(parts[l], user) && FilterKeeps(cfg, Flat(parts))
    ensures cfg.filter.mayMatch(SerUser(user), FilterOf(cfg.filter, Flat(parts)))
  {
    hide SerUser, KeySorted, FilterOf;
    var i :| 0 <= i < |parts[l]| && parts[l][i].key.user == user;
    PartsSorted(parts, l);
    var k :| 0 <= k < |Flat(parts)| && Flat(parts)[k] == parts[l][i];
  }

  /* ---------------------------------------------------------------- extraction */

  lemma ExtentsLength(cfg: TableConfig, parts: seq<seq<Entry>>)
    requires WellFormed(cfg, parts)
    ensures cfg.block.interval >= 1 && |Extents(cfg.block, parts, 0)| == |parts|
  {
    BlockAnswers(cfg, parts, 0, [0], _ => []);
  }

  lemma {:induction false} BlocksYieldEntries(cfg: TableConfig, parts: seq<seq<Entry>>, j: nat, junk: Junk)
    requires WellFormed(cfg, parts) && j <= |parts|
    ensures cfg.block.interval >= 1 && |Extents(cfg.block, parts, 0)| == |parts|
    ensures EntriesFromBlocks(cfg.block, TableOf(cfg, parts), Extents(cfg.block, parts, 0)[j..], junk) ==
              Some(Flat(parts[j..]))
    decreases |parts| - j
  {
    hide TableOf, BlockAt, SerUser, KeySorted, Extents, BlocksImage, GoodMeta, ItemsOf, EntriesOf, Get, GoodBlock,
         SearchYields, WellFormed;
    ExtentsLength(cfg, parts);
    if j < |parts| {
      var x := Extents(cfg.block, parts, 0);
      BlockAnswers(cfg, parts, j, [0], junk);
      BlocksYieldEntries(cfg, parts, j + 1, junk);
      assert x[j..][0] == x[j] && x[j..][1..] == x[j + 1..];
      assert parts[j..][0] == parts[j] && parts[j..][1..] == parts[j + 1..];
    }
  }

  // Extraction returns exactly the added entries, also of keys split over two blocks; the
  // backward form returns them reversed.
  lemma TableEntries(cfg: TableConfig, parts: seq<seq<Entry>>, junk: Junk)
    requires WellFormed(cfg, parts) && cfg.block.interval > 4
    ensures var file := TableOf(cfg, parts);
            && ParseTable(cfg.block, file, junk).Parsed?
            && EntriesFromBlocks(cfg.block, file, ParseTable(cfg.block, file, junk).table.extents, junk) ==
                 Some(Flat(parts))
  {
    hide TableOf, KeySorted, BlocksImage, GoodMeta, ParseTable, EntriesFromBlocks;
    TableOpens(cfg, parts, junk);
    BlocksYieldEntries(cfg, parts, 0, junk);
    assert Extents(cfg.block, parts, 0)[0..] == Extents(cfg.block, parts, 0) && parts[0..] == parts;
  }
}
