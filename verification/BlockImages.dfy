/** Writing and loading whole blocks (persistent/block.cc, sstable::get_block): the builder
    class, the checks made when a stored block is read, and the round trip between them. */
module BlockImages {
  import opened Bytes
  import opened Keys
  import opened Segments
  import opened Blocks
  import opened BlockFiles

  // The block a builder makes of these segments.
  function BuiltImage(cfg: Config, segs: seq<Segment>): Data
    requires cfg.interval >= 1
  {
    BlockImage(cfg, segs, Offsets(segs, SpecialIdx(|segs|, cfg.interval)))
  }

  // Every length fits its field: what block_builder::finish asserts or silently needs.
  predicate Fits(cfg: Config, segs: seq<Segment>)
    requires cfg.interval >= 1
  {
    var offs := Offsets(segs, SpecialIdx(|segs|, cfg.interval));
    && |offs| < 0x1_0000
    && |Content(segs, offs)| + 9 < 0x1_0000_0000
    && |BuiltImage(cfg, segs)| < 0x1_0000_0000
  }

  /* ---------------------------------------------------------------- building */

  // The end of block_builder::finish.
  method SealBlock(cfg: Config, raw: Data) returns (storage: Data)
    ensures storage == Sealed(cfg, raw)
  {
    hide Be32;
    var content := raw;
    storage := [0, 0, 0, 0] + content;
    if cfg.codec.Some? {
      content := cfg.codec.value.compress(content);
      storage := [0, 0, 0, 0] + content;
      storage := storage + [1];
    } else {
      storage := storage + [0];
    }
    storage := storage + Be32(cfg.crc(content));
    storage := Be32(|storage| % 0x1_0000_0000) + storage[4..];
  }

  class BlockBuilder {
    const cfg: Config
    var storage: Data
    var prefix: Option<Data>       // public prefix of the current segment builder
    var segCount: nat
    var sbsos: seq<nat>
    var finished: bool
    ghost var segs: seq<Segment>

    ghost predicate Valid()
      reads this
    {
      && cfg.interval >= 1
      && (segs == [] ==> prefix.None? && storage == [0, 0, 0, 0] && segCount == 0 && sbsos == [])
      && (segs != [] ==> Building(segs))
    }

    ghost predicate Building(s: seq<Segment>)
      requires cfg.interval >= 1 && s != []
      reads this
    {
      var n := |s| - 1;
      && prefix == Some(s[n].prefix)
      && storage == [0, 0, 0, 0] + SegsBytes(s[..n]) + OpenBytes(s[n])
      && segCount == |s|
      && sbsos == Offsets(s, SpecialIdx(|s|, cfg.interval))
    }

    constructor (cfg: Config)
      requires cfg.interval >= 1
      ensures Valid() && segs == [] && !finished && this.cfg == cfg
    {
      this.cfg := cfg;
      storage, prefix, segCount, sbsos, finished, segs := [0, 0, 0, 0], None, 0, [], false, [];
    }

    function BytesSize(): nat
      reads this
    {
      |storage|
    }

    // The constructor of block_segment_builder: prefix length and prefix.
    method OpenSegment(pp: Data)
      modifies this`storage, this`prefix
      ensures storage == old(storage) + OpenBytes(Segment(pp, [])) && prefix == Some(pp)
    {
      storage := storage + Be16(|pp| % 0x1_0000);
      storage := storage + pp;
      prefix := Some(pp);
      assert storage == old(storage) + OpenBytes(Segment(pp, []));
    }

    // block_segment_builder::add
    method SegmentAdd(e: Entry) returns (ok: bool)
      requires Valid() && segs != []
      modifies this`storage, this`segs
      ensures Valid() && segs != []
      ensures ok == (SerUser(e.key.user) == old(segs)[|old(segs)| - 1].prefix)
      ensures segs == if ok then AddItem(old(segs), SerUser(e.key.user), Item(e)) else old(segs)
    {
      hide SerUser, OpenBytes, SegsBytes, Offsets, SpecialIdx;
      if SerUser(e.key.user) != prefix.value {
        return false;
      }
      var ril := (4 + |SerValue(e.value)|) % 0x1_0000_0000;
      storage := storage + Be32(ril);
      storage := storage + Be32(e.key.seqNo);
      storage := storage + SerValue(e.value);
      GrowLast(segs, Item(e), cfg.interval);
      ItemPieces(old(storage), SegsBytes(segs[..|segs| - 1]), OpenBytes(segs[|segs| - 1]), ril, e);
      segs := segs[..|segs| - 1] + [Segment(prefix.value, segs[|segs| - 1].items + [Item(e)])];
      return true;
    }

    // block_segment_builder::finish followed by a new segment builder.
    method NextSegment(pp: Data)
      requires Valid() && segs != []
      modifies this
      ensures Valid() && finished == old(finished) && segs == old(segs) + [Segment(pp, [])]
    {
      hide OpenBytes, SegsBytes, Offsets, SpecialIdx;
      CloseLast(segs);
      Associate([0, 0, 0, 0], SegsBytes(segs[..|segs| - 1]), OpenBytes(segs[|segs| - 1]), END_MARK);
      storage := storage + END_MARK;
      segCount := segCount + 1;
      if (segCount + 1) % cfg.interval == 0 {
        sbsos := sbsos + [|storage|];
      }
      OpenSegment(pp);
      OpenNext(segs, pp, cfg.interval);
      segs := segs + [Segment(pp, [])];
    }

    // block_builder::add: the segments grow by the entry's item, in a new segment for a new user key.
    method Add(e: Entry)
      requires Valid() && !finished
      requires segs != [] && segs[|segs| - 1].prefix != SerUser(e.key.user) ==>
                 Compare(SerUser(e.key.user), segs[|segs| - 1].prefix) == Greater
      modifies this
      ensures Valid() && !finished
      ensures segs == AddItem(old(segs), SerUser(e.key.user), Item(e))
    {
      hide SerUser, Item, AddItem, SegsBytes, OpenBytes, Offsets;
      var pp := SerUser(e.key.user);
      if segs == [] || segs[|segs| - 1].prefix != pp { AddItemFresh(segs, pp, Item(e)); }
      assert segs == [] ==> segs + [Segment(pp, [])] == [Segment(pp, [])];
      if prefix.None? {
        FirstSegment(pp);
      }
      var ok := SegmentAdd(e);
      if !ok {
        NextSegment(pp);
        ok := SegmentAdd(e);
      }
    }

    method FirstSegment(pp: Data)
      requires Valid() && segs == []
      modifies this
      ensures Valid() && finished == old(finished) && segs == [Segment(pp, [])]
    {
      hide SegsBytes, OpenBytes, Offset, Offsets;
      segCount := segCount + 1;
      OpenSegment(pp);
      sbsos := sbsos + [4];
      segs := [Segment(pp, [])];
      OpenFirst(pp);
      assert storage == [0, 0, 0, 0] + SegsBytes(segs[..0]) + OpenBytes(segs[0]);
    }

    // block_builder::finish
    method Finish() returns (image: Data)
      requires Valid() && !finished && segs != [] && Fits(cfg, segs)
      modifies this
      ensures image == BuiltImage(cfg, old(segs)) && storage == image
      ensures finished
    {
      hide SegsBytes, OpenBytes, Offset, Offsets, SpecialIdx, Be32, Be16, OffsetsBytes, Sealed, Fits;
      finished := true;
      CloseLast(segs);
      Associate([0, 0, 0, 0], SegsBytes(segs[..|segs| - 1]), OpenBytes(segs[|segs| - 1]), END_MARK);
      storage := storage + END_MARK;
      LastSpecialInside(segs, cfg.interval);
      if sbsos[|sbsos| - 1] == |storage| {
        assert false;  // the source would drop this offset, but every offset lies before the end
      }
      AppendOffsets();
      storage := storage + Be16(|sbsos| % 0x1_0000);
      assert storage[4..] == Content(segs, sbsos);
      image := SealBlock(cfg, storage[4..]);
      storage := image;
    }

    // The loop of block_builder::finish that stores the special segment offsets.
    method AppendOffsets()
      modifies this`storage
      ensures storage == old(storage) + OffsetsBytes(sbsos)
    {
      var j := 0;
      assert OffsetsBytes(sbsos[..0]) == [];
      while j < |sbsos|
        invariant j <= |sbsos| && storage == old(storage) + OffsetsBytes(sbsos[..j])
      {
        OffsetsBytesAppend(sbsos[..j], sbsos[j]);
        assert sbsos[..j + 1] == sbsos[..j] + [sbsos[j]];
        storage := storage + Be32(sbsos[j] % 0x1_0000_0000);
        j := j + 1;
      }
      assert sbsos[..j] == sbsos;
    }
  }

  lemma AddItemFresh(segs: seq<Segment>, pp: Data, item: Data)
    requires segs == [] || segs[|segs| - 1].prefix != pp
    ensures AddItem(segs + [Segment(pp, [])], pp, item) == AddItem(segs, pp, item)
  {
    var r := segs + [Segment(pp, [])];
    assert r[..|r| - 1] == segs && [] + [item] == [item];
  }

  lemma Associate(a: Data, b: Data, c: Data, d: Data)
    ensures a + b + c + d == a + (b + c + d) && a + b + c + d == a + b + (c + d)
  {}

  lemma ItemPieces(storage: Data, front: Data, last: Data, ril: nat, e: Entry)
    requires storage == [0, 0, 0, 0] + front + last
    requires ril == (4 + |SerValue(e.value)|) % 0x1_0000_0000
    ensures storage + Be32(ril) + Be32(e.key.seqNo) + SerValue(e.value) ==
              [0, 0, 0, 0] + front + (last + ItemBytes(Item(e)))
  {
    hide Be32;
    assert ItemBytes(Item(e)) == Be32(ril) + (Be32(e.key.seqNo) + SerValue(e.value));
  }

  lemma OpenFirst(pp: Data)
    ensures SegsBytes([Segment(pp, [])][..0]) == [] && Offsets([Segment(pp, [])], [0]) == [4]
    ensures forall interval | interval >= 1 :: SpecialIdx(1, interval) == [0]
  {
    assert [Segment(pp, [])][..0] == [];
    forall interval | interval >= 1 ensures SpecialIdx(1, interval) == [0] {
      assert SpecialIdx(0, interval) == [];
    }
  }

  // Appending an item to the last segment leaves all segment offsets alone.
  lemma GrowLast(segs: seq<Segment>, item: Data, interval: nat)
    requires segs != [] && interval >= 1
    ensures var last := segs[|segs| - 1];
            var grown := segs[..|segs| - 1] + [Segment(last.prefix, last.items + [item])];
            && grown[..|grown| - 1] == segs[..|segs| - 1]
            && OpenBytes(grown[|grown| - 1]) == OpenBytes(last) + ItemBytes(item)
            && Offsets(grown, SpecialIdx(|grown|, interval)) == Offsets(segs, SpecialIdx(|segs|, interval))
  {
    hide ItemBytes, SegBytes;
    var last := segs[|segs| - 1];
    var grown := segs[..|segs| - 1] + [Segment(last.prefix, last.items + [item])];
    ItemsBytesAppend(last.items, item);
    var idx := SpecialIdx(|segs|, interval);
    forall j | 0 <= j < |idx| ensures Offset(grown, 4, idx[j]) == Offset(segs, 4, idx[j]) {
      assert grown[..idx[j]] == segs[..idx[j]];
    }
  }

  lemma CloseLast(segs: seq<Segment>)
    requires segs != []
    ensures SegsBytes(segs[..|segs| - 1]) + OpenBytes(segs[|segs| - 1]) + END_MARK == SegsBytes(segs)
  {
    hide OpenBytes;
    var n := |segs| - 1;
    assert segs == segs[..n] + [segs[n]];
    SegsBytesAppend(segs[..n], segs[n]);
  }

  lemma OpenNext(segs: seq<Segment>, pp: Data, interval: nat)
    requires segs != [] && interval >= 1
    ensures var next := segs + [Segment(pp, [])];
            && next[..|next| - 1] == segs
            && Offsets(next, SpecialIdx(|next|, interval)) ==
               Offsets(segs, SpecialIdx(|segs|, interval)) +
                   (if (|next| + 1) % interval == 0 then [4 + |SegsBytes(segs)|] else [])
  {
    hide SegBytes;
    var next := segs + [Segment(pp, [])];
    var idx := SpecialIdx(|segs|, interval);
    assert next[..|segs|] == segs;
    forall j | 0 <= j < |idx| ensures Offset(next, 4, idx[j]) == Offset(segs, 4, idx[j]) {
      assert next[..idx[j]] == segs[..idx[j]];
    }
  }

  // The recorded offsets lie inside the data area, so finish never has one to drop.
  lemma LastSpecialInside(segs: seq<Segment>, interval: nat)
    requires segs != [] && interval >= 1
    ensures var offs := Offsets(segs, SpecialIdx(|segs|, interval));
            offs != [] && forall j | 0 <= j < |offs| :: offs[j] < 4 + |SegsBytes(segs)|
  {
    hide Offset;
    SpecialIdxValid(|segs|, interval);
    var idx := SpecialIdx(|segs|, interval);
    assert segs[..|segs|] == segs;
    forall j | 0 <= j < |idx| ensures Offset(segs, 4, idx[j]) < Offset(segs, 4, |segs|) {
      OffsetMonotone(segs, 4, idx[j], |segs|);
    }
    WholeOffset(segs);
  }

  lemma WholeOffset(segs: seq<Segment>)
    ensures Offset(segs, 4, |segs|) == 4 + |SegsBytes(segs)|
  {
    assert segs[..|segs|] == segs;
  }

  lemma {:induction false} OffsetsBytesAppend(offs: seq<nat>, o: nat)
    ensures OffsetsBytes(offs + [o]) == OffsetsBytes(offs) + Be32(o % 0x1_0000_0000)
  {
    hide Be32;
    if offs == [] {
      assert offs + [o] == [o];
      assert OffsetsBytes([o][1..]) == [];
    } else {
      assert (offs + [o])[1..] == offs[1..] + [o];
      OffsetsBytesAppend(offs[1..], o);
    }
  }

  /* ------------------------------------------------------------------ loading */

  // undecompressed_block_content on storage of a whole block.
  function StoredContent(storage: Data): Option<Data> {
    if |storage| < 4 then None
    else
      var btl := U32(storage, 0);
      if btl < 9 || |storage| < btl then None else Some(storage[4..btl - 5])
  }

  // sstable::get_block after reading `storage`: the memory the block is parsed from and the size
  // of its storage. `junk` is whatever the buffer holds behind the bytes that were produced.
  function LoadBlock(cfg: Config, storage: Data, junk: Data): Option<(Data, nat)> {
    match StoredContent(storage)
    case None => None
    case Some(content) =>
      var btl := |content| + 9;
      if cfg.crc(content) != U32(storage, btl - 4) then None
      else if storage[btl - 5] == 0 then Some((storage + junk, |storage|))
      else if storage[btl - 5] != 1 || cfg.codec.None? then None
      else
        match cfg.codec.value.decompress(content)
        case None => None
        case Some(plain) => Some((Be32((|plain| + 9) % 0x1_0000_0000) + plain + junk, |plain| + 9))
  }

  // Memory holding this content as a block of the right total length.
  predicate HoldsContent(mem: Data, size: nat, content: Data) {
    && At(mem, 0, Be32((|content| + 9) % 0x1_0000_0000)) && At(mem, 4, content)
    && size == |content| + 9 < 0x1_0000_0000
  }

  lemma FrameLayout(content: Data, wc: Byte, crc: Data -> Word)
    requires |content| + 9 < 0x1_0000_0000
    ensures var f := Frame(content, wc, crc);
            && |f| == |content| + 9 && U32(f, 0) == |f| && f[4..|f| - 5] == content
            && f[|f| - 5] == wc && U32(f, |f| - 4) == crc(content)
  {
    hide Be32, U32;
    var f := Frame(content, wc, crc);
    var head, tail := Be32(|content| + 9), Be32(crc(content));
    assert f == head + (content + ([wc] + tail));
    assert f[0..4] == head;
    ReadU32(f, 0, |content| + 9);
    assert f[4..|f| - 5] == content && f[|f| - 5] == wc;
    assert f[|f| - 4..|f|] == tail;
    ReadU32(f, |f| - 4, crc(content));
  }

  // Whatever was stored, compressed or not, loads to memory that holds the written content.
  lemma LoadBuilt(cfg: Config, content: Data, junk: Data)
    requires |content| + 9 < 0x1_0000_0000
    requires cfg.codec.Some? ==> Lossless(cfg.codec.value) && |cfg.codec.value.compress(content)| + 9 < 0x1_0000_0000
    ensures var image := if cfg.codec.None? then Frame(content, 0, cfg.crc)
                         else Frame(cfg.codec.value.compress(content), 1, cfg.crc);
            var loaded := LoadBlock(cfg, image, junk);
            && loaded.Some? && HoldsContent(loaded.value.0, loaded.value.1, content)
  {
    hide Frame, Be32, U32;
    if cfg.codec.None? {
      FrameLayout(content, 0, cfg.crc);
      var image := Frame(content, 0, cfg.crc);
      FrameStarts(content, 0, cfg.crc, junk);
    } else {
      var packed := cfg.codec.value.compress(content);
      assert cfg.codec.value.decompress(packed) == Some(content);
      FrameLayout(packed, 1, cfg.crc);
      var mem := Be32(|content| + 9) + content + junk;
      assert mem[0..4] == Be32(|content| + 9) && mem[4..4 + |content|] == content;
    }
  }

  lemma FrameStarts(content: Data, wc: Byte, crc: Data -> Word, junk: Data)
    requires |content| + 9 < 0x1_0000_0000
    ensures At(Frame(content, wc, crc) + junk, 0, Be32(|content| + 9)) && At(Frame(content, wc, crc) + junk, 4, content)
  {
    hide Be32;
    var mem := Frame(content, wc, crc) + junk;
    assert mem[0..4] == Be32(|content| + 9) && mem[4..4 + |content|] == content;
  }

  lemma {:induction false} OffsetsReadBack(mem: Data, at: nat, offs: seq<nat>)
    requires At(mem, at, OffsetsBytes(offs)) && forall j | 0 <= j < |offs| :: offs[j] < 0x1_0000_0000
    ensures |OffsetsBytes(offs)| == 4 * |offs|
    ensures ReadOffsets(mem, at, |offs|) == offs
    decreases |offs|
  {
    hide Be32, U32, At;
    if offs != [] {
      AtSplit(mem, at, Be32(offs[0]), OffsetsBytes(offs[1..]));
      ReadU32(mem, at, offs[0]);
      AtLength(mem, at + 4, OffsetsBytes(offs[1..]));
      OffsetsReadBack(mem, at + 4, offs[1..]);
      FirstOffsets(mem, at, offs);
    } else {
      AtLength(mem, at, []);
    }
  }

  lemma AtLength(mem: Data, at: nat, piece: Data)
    requires At(mem, at, piece)
    ensures at + |piece| <= |mem|
  {}

  lemma FirstOffsets(mem: Data, at: nat, offs: seq<nat>)
    requires offs != [] && at + 4 * |offs| <= |mem| && U32(mem, at) == offs[0]
    requires ReadOffsets(mem, at + 4, |offs| - 1) == offs[1..]
    ensures ReadOffsets(mem, at, |offs|) == offs
  {
    hide U32;
    var r := ReadOffsets(mem, at, |offs|);
    forall j | 0 < j < |offs| ensures r[j] == offs[j] {
      assert r[j] == ReadOffsets(mem, at + 4, |offs| - 1)[j - 1] == offs[1..][j - 1];
    }
  }

  // Opening a loaded block finds the special segments, the data area and the first prefix that were written.
  lemma OpenBuilt(mem: Data, size: nat, segs: seq<Segment>, idx: seq<nat>)
    requires segs != [] && ValidSegments(segs) && ValidIdx(idx, |segs|) && |idx| < 0x1_0000
    requires HoldsContent(mem, size, Content(segs, Offsets(segs, idx)))
    ensures OpenBlock(mem, size).Some? && Laid(mem, segs, idx, OpenBlock(mem, size).value)
  {
    hide Be32, Be16, U32, U16, At, SegsBytes, Offset, OffsetsBytes, ParseSegment, ReadOffsets;
    var offs := Offsets(segs, idx);
    var content := Content(segs, offs);
    var n := |content|;
    ReadU32(mem, 0, n + 9);
    assert content == SegsBytes(segs) + (OffsetsBytes(offs) + Be16(|offs|));
    AtSplit(mem, 4, SegsBytes(segs), OffsetsBytes(offs) + Be16(|offs|));
    AtSplit(mem, 4 + |SegsBytes(segs)|, OffsetsBytes(offs), Be16(|offs|));
    AtLength(mem, 4, content);
    WholeOffset(segs);
    OffsetsInside(segs, idx);
    OffsetsReadBack(mem, 4 + |SegsBytes(segs)|, offs);
    ReadU16(mem, n + 2, |offs|);
    FirstSegmentFound(mem, segs, idx);
  }

  lemma OffsetsInside(segs: seq<Segment>, idx: seq<nat>)
    requires ValidIdx(idx, |segs|)
    ensures forall j | 0 <= j < |idx| :: Offsets(segs, idx)[j] < 4 + |SegsBytes(segs)|
  {
    hide Offset;
    forall j | 0 <= j < |idx| ensures Offset(segs, 4, idx[j]) < Offset(segs, 4, |segs|) {
      OffsetMonotone(segs, 4, idx[j], |segs|);
    }
    WholeOffset(segs);
  }

  lemma FirstSegmentFound(mem: Data, segs: seq<Segment>, idx: seq<nat>)
    requires segs != [] && At(mem, 4, SegsBytes(segs)) && ValidSegments(segs) && ValidIdx(idx, |segs|)
    ensures var offs := Offsets(segs, idx);
            FirstPrefix(mem, offs[0], if |offs| > 1 then offs[1] else Offset(segs, 4, |segs|)) == Some(segs[0].prefix)
  {
    hide At, Offset, ParseSegment, SegBytes;
    var end := if |idx| > 1 then idx[1] else |segs|;
    OffsetMonotone(segs, 4, 1, end);
    ParseAt(mem, segs, 4, 0, Offset(segs, 4, end));
  }

  /* --------------------------------------------------------------- round trip */

  // Scanning all segments of a block decodes them.
  lemma {:induction false} EntriesAreDecoded(mem: Data, segs: seq<Segment>, a: nat)
    requires At(mem, 4, SegsBytes(segs)) && ValidSegments(segs) && a <= |segs|
    ensures EntriesOf(mem, Offset(segs, 4, a), Offset(segs, 4, |segs|)) == DecodeSegments(segs[a..])
    decreases |segs| - a
  {
    hide At, Offset, ParseSegment, SegBytes, DecodeSegment;
    if a < |segs| {
      OffsetMonotone(segs, 4, a + 1, |segs|);
      OffsetStep(segs, 4, a);
      ParseAt(mem, segs, 4, a, Offset(segs, 4, |segs|));
      EntriesAreDecoded(mem, segs, a + 1);
      assert segs[a..][0] == segs[a] && segs[a..][1..] == segs[a + 1..];
    }
  }

  /* What loading and opening a stored block gives. */
  function OpenStored(cfg: Config, storage: Data, junk: Data): Option<(Data, BlockView)> {
    match LoadBlock(cfg, storage, junk)
    case None => None
    case Some((mem, size)) =>
      match OpenBlock(mem, size)
      case None => None
      case Some(b) => Some((mem, b))
  }

  ghost predicate Usable(cfg: Config) {
    cfg.interval >= 1 && (cfg.codec.Some? ==> Lossless(cfg.codec.value))
  }

  lemma StoredBlockOpens(cfg: Config, segs: seq<Segment>, junk: Data)
    requires Usable(cfg) && segs != [] && ValidSegments(segs) && Fits(cfg, segs)
    ensures var stored := OpenStored(cfg, BuiltImage(cfg, segs), junk);
            stored.Some? && Laid(stored.value.0, segs, SpecialIdx(|segs|, cfg.interval), stored.value.1)
  {
    hide Frame, LoadBlock, OpenBlock, Content, Offsets, SpecialIdx, Laid;
    var idx := SpecialIdx(|segs|, cfg.interval);
    SpecialIdxValid(|segs|, cfg.interval);
    FrameSize(cfg, segs);
    LoadBuilt(cfg, Content(segs, Offsets(segs, idx)), junk);
    var loaded := LoadBlock(cfg, BuiltImage(cfg, segs), junk).value;
    OpenBuilt(loaded.0, loaded.1, segs, idx);
  }

  lemma FrameSize(cfg: Config, segs: seq<Segment>)
    requires Usable(cfg) && Fits(cfg, segs)
    ensures |Offsets(segs, SpecialIdx(|segs|, cfg.interval))| == |SpecialIdx(|segs|, cfg.interval)|
    ensures cfg.codec.Some? ==>
              |cfg.codec.value.compress(Content(segs, Offsets(segs, SpecialIdx(|segs|, cfg.interval))))| +
              9 < 0x1_0000_0000
  {
    hide Be32, Content;
  }

  // Block round trip: a finished block, compressed or not, reads back as exactly the entries added.
  lemma BlockRoundTrip(cfg: Config, es: seq<Entry>, junk: Data)
    requires Usable(cfg) && es != [] && ValidEntries(es) && UserOrdered(es) && Fits(cfg, Group(es))
    ensures var stored := OpenStored(cfg, BuiltImage(cfg, Group(es)), junk);
            && stored.Some?
            && var (mem, b) := stored.value; EntriesOf(mem, b.specials[0], b.metaAt) == Some(es)
  {
    hide OpenStored, BuiltImage, Group, EntriesOf, DecodeSegments, Offset, At, ValidEntry, UserLess;
    GroupAscends(es);
    StoredBlockOpens(cfg, Group(es), junk);
    var mem := OpenStored(cfg, BuiltImage(cfg, Group(es)), junk).value.0;
    EntriesAreDecoded(mem, Group(es), 0);
    assert Group(es)[0..] == Group(es);
    GroupDecodes(es);
  }

  // Block search: a finished block answers a user key exactly when it was added, with all of the
  // key's items in insertion order.
  lemma BlockSearch(cfg: Config, es: seq<Entry>, user: Data, junk: Data)
    requires Usable(cfg) && es != [] && ValidEntries(es) && UserOrdered(es) && Fits(cfg, Group(es)) && ValidUser(user)
    ensures var stored := OpenStored(cfg, BuiltImage(cfg, Group(es)), junk);
            && stored.Some?
            && var (mem, b) := stored.value;
            && b.specials != []
            && var r := Get(mem, b, SerUser(user));
            && r == Scan(mem, b.specials[0], b.metaAt, SerUser(user))
            && (ItemsOf(es, user) == [] ==> r == Miss)
            && (ItemsOf(es, user) != [] ==>
                  r.Hit? && r.view.prefix == SerUser(user) && r.view.items == ItemsOf(es, user))
  {
    hide OpenStored, BuiltImage, Group, Offset, At, ValidEntry, UserLess, Get, Scan, Find, ItemsOf, SerUser, LexLess,
         Framed;
    var segs := Group(es);
    GroupAscends(es);
    StoredBlockOpens(cfg, segs, junk);
    var (mem, b) := OpenStored(cfg, BuiltImage(cfg, segs), junk).value;
    SerUserFramed(user);
    GetIsLinearScan(mem, segs, SpecialIdx(|segs|, cfg.interval), b, SerUser(user));
    GroupHolds(es, user);
    FoundMeans(segs, SerUser(user), ItemsOf(es, user));
  }

  lemma FoundMeans(segs: seq<Segment>, pp: Data, items: seq<Data>)
    requires HoldsItems(segs, pp, items) && Ascending(segs)
    ensures var r := Find(segs, 4, 0, |segs|, pp);
            && (items == [] ==> r == Miss)
            && (items != [] ==> r.Hit? && r.view.prefix == pp && r.view.items == items)
  {
    hide LexLess, Find;
    FindMeans(segs, 4, 0, |segs|, pp);
    FindSplit(segs, 4, 0, |segs|, |segs|, pp);
    if items != [] {
      var i :| 0 <= i < |segs| && segs[i] == Segment(pp, items);
      forall k | 0 <= k < |segs| && segs[k].prefix == pp ensures k == i {
        LexTotal(pp, pp);
      }
    }
  }
}
