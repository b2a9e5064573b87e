/** Blocks (persistent/block.cc): the file image block_builder produces, opening a block,
    and the two level skip search of block::get. */
module Blocks {
  import opened Bytes
  import opened Keys
  import opened Segments

  /* The compressor, of which only losslessness is known. */
  datatype Codec = Codec(compress: Data -> Data, decompress: Data -> Option<Data>)

  ghost predicate Lossless(c: Codec) {
    forall x :: c.decompress(c.compress(x)) == Some(x)
  }

  /* interval: max_block_segments_number; codec: the compressor when compression is on. */
  datatype Config = Config(interval: nat, codec: Option<Codec>, crc: Data -> Word)

  /* -------------------------------------------------------- special segments */

  // Whether block_builder::add records the offset of the segment with this index.
  predicate Special(i: nat, interval: nat)
    requires interval >= 1
  {
    i == 0 || (i + 2) % interval == 0
  }

  function SpecialIdx(n: nat, interval: nat): (idx: seq<nat>)
    requires interval >= 1
    ensures forall j | 0 <= j < |idx| :: idx[j] < n
  {
    if n == 0 then []
    else SpecialIdx(n - 1, interval) + (if Special(n - 1, interval) then [n - 1] else [])
  }

  // What the skip search needs of the recorded segments: they ascend and start with the first.
  predicate ValidIdx(idx: seq<nat>, n: nat) {
    && idx != [] && idx[0] == 0
    && (forall j | 0 <= j < |idx| :: idx[j] < n)
    && (forall j | 0 <= j < |idx| - 1 :: idx[j] < idx[j + 1])
  }

  // Exactly the first segment and those whose index meets the interval are special, in order.
  lemma {:induction false} SpecialIdxMeans(n: nat, interval: nat)
    requires interval >= 1
    ensures forall i :: i in SpecialIdx(n, interval) <==> 0 <= i < n && (i == 0 || (i + 2) % interval == 0)
    ensures forall j, k | 0 <= j < k < |SpecialIdx(n, interval)| ::
              SpecialIdx(n, interval)[j] < SpecialIdx(n, interval)[k]
  {
    if n > 0 {
      SpecialIdxMeans(n - 1, interval);
    }
  }

  lemma {:induction false} SpecialIdxValid(n: nat, interval: nat)
    requires interval >= 1 && n >= 1
    ensures ValidIdx(SpecialIdx(n, interval), n)
    ensures |SpecialIdx(n, interval)| <= n
  {
    if n > 1 {
      SpecialIdxValid(n - 1, interval);
    } else {
      assert SpecialIdx(0, interval) == [];
    }
  }

  // A block has one special segment exactly when none of its later segments meets the interval.
  lemma {:induction false} OneSpecialSegment(n: nat, interval: nat)
    requires interval >= 1 && n >= 1
    ensures |SpecialIdx(n, interval)| == 1 <==> forall i | 1 <= i < n :: !Special(i, interval)
  {
    if n > 1 {
      hide Special;
      OneSpecialSegment(n - 1, interval);
      SpecialIdxValid(n - 1, interval);
      assert SpecialIdx(n, interval) == SpecialIdx(n - 1, interval) +
               (if Special(n - 1, interval) then [n - 1] else []);
    } else {
      assert SpecialIdx(0, interval) == [];
    }
  }

  /* ------------------------------------------------------------- block image */

  function OffsetsBytes(offs: seq<nat>): Data {
    if offs == [] then [] else Be32(offs[0] % 0x1_0000_0000) + OffsetsBytes(offs[1..])
  }

  function Offsets(segs: seq<Segment>, idx: seq<nat>): (offs: seq<nat>)
    requires forall j | 0 <= j < |idx| :: idx[j] <= |segs|
  {
    seq(|idx|, j requires 0 <= j < |idx| => Offset(segs, 4, idx[j]))
  }

  function Content(segs: seq<Segment>, offs: seq<nat>): Data {
    SegsBytes(segs) + OffsetsBytes(offs) + Be16(|offs| % 0x1_0000)
  }

  // BTL, content, WC, CRC32.
  function Frame(content: Data, wc: Byte, crc: Data -> Word): Data {
    Be32((4 + |content| + 1 + 4) % 0x1_0000_0000) + content + [wc] + Be32(crc(content))
  }

  // The content as it is stored: compressed if asked for, with its flag, check sum and total length.
  function Sealed(cfg: Config, content: Data): Data {
    match cfg.codec
    case None => Frame(content, 0, cfg.crc)
    case Some(c) => Frame(c.compress(content), 1, cfg.crc)
  }

  function BlockImage(cfg: Config, segs: seq<Segment>, offs: seq<nat>): Data {
    Sealed(cfg, Content(segs, offs))
  }

  /* --------------------------------------------------------------- opening */

  datatype BlockView = BlockView(size: nat, specials: seq<nat>, metaAt: nat, first: Data)

  // block::block on uncompressed storage of this size: None where it throws or reads outside.
  function OpenBlock(mem: Data, size: nat): Option<BlockView> {
    if |mem| < 4 then None
    else
      var btl := U32(mem, 0);
      if btl < 7 || |mem| < btl - 5 then None
      else
        var nsbs := U16(mem, btl - 7);
        if nsbs == 0 || btl - 7 < 4 * nsbs then None
        else
          var metaAt := btl - 7 - 4 * nsbs;
          var specials := ReadOffsets(mem, metaAt, nsbs);
          match FirstPrefix(mem, specials[0], if nsbs > 1 then specials[1] else metaAt)
          case None => None
          case Some(first) => Some(BlockView(size, specials, metaAt, first))
  }

  function ReadOffsets(mem: Data, at: nat, n: nat): (offs: seq<nat>)
    requires at + 4 * n <= |mem|
    ensures |offs| == n
  {
    seq(n, j requires 0 <= j < n => U32(mem, at + 4 * j))
  }

  // The prefix of the first segment the interval yields.
  function FirstPrefix(mem: Data, from: nat, sentinel: nat): Option<Data> {
    if sentinel <= from then None
    else
      match ParseSegment(mem, from, sentinel)
      case Bad => None
      case Seg(v, whole) => if whole then Some(v.prefix) else None
  }

  // block::parse_meta_data collects the special segments in a loop.
  method ReadSpecials(mem: Data, from: nat, sentinel: nat) returns (specials: seq<nat>)
    requires from <= sentinel <= |mem| && (sentinel - from) % 4 == 0
    ensures |specials| == (sentinel - from) / 4
    ensures forall j | 0 <= j < |specials| :: specials[j] == U32(mem, from + 4 * j)
  {
    hide U32;
    var cur := from;
    specials := [];
    while cur < sentinel
      invariant cur == from + 4 * |specials| && cur <= sentinel
      invariant forall j | 0 <= j < |specials| :: specials[j] == U32(mem, from + 4 * j)
      decreases sentinel - cur
    {
      specials := specials + [U32(mem, cur)];
      cur := cur + 4;
    }
  }

  method BlockOpen(mem: Data, size: nat) returns (r: Option<BlockView>)
    ensures r == OpenBlock(mem, size)
  {
    hide U32, U16, ParseSegment;
    if |mem| < 4 { return None; }
    var btl := U32(mem, 0);
    if btl < 7 || |mem| < btl - 5 { return None; }
    var nsbs := U16(mem, btl - 7);
    if nsbs == 0 || btl - 7 < 4 * nsbs { return None; }
    var sentinel := btl - 7;
    var metaAt := sentinel - 4 * nsbs;
    var specials := ReadSpecials(mem, metaAt, sentinel);
    assert specials == ReadOffsets(mem, metaAt, nsbs);
    var end := if nsbs > 1 then specials[1] else metaAt;
    if end <= specials[0] { return None; }
    var p := BlockSegmentParse(mem, specials[0], end);
    if p.Seg? && p.whole {
      return Some(BlockView(size, specials, metaAt, p.view.prefix));
    }
    return None;
  }

  /* ------------------------------------------------------------- skip search */

  function GetFrom(mem: Data, b: BlockView, j: nat, up: Data): Lookup
    requires j < |b.specials|
    decreases |b.specials| - j
  {
    var p1 := b.specials[j];
    if b.size <= p1 then Failed
    else
      match ParseSegment(mem, p1, b.size)
      case Bad => Failed
      case Seg(seg1, _) =>
        if j + 1 == |b.specials| then
          if LargerEqualThanPrefix(mem, seg1, up) then Scan(mem, p1, b.metaAt, up) else Miss
        else
          var p2 := b.specials[j + 1];
          if b.size <= p2 then Failed
          else
            match ParseSegment(mem, p2, b.size)
            case Bad => Failed
            case Seg(seg2, _) =>
              if LargerEqualThanPrefix(mem, seg1, up) && LessThanPrefix(mem, seg2, up) then
                match Scan(mem, p1, p2, up)
                case Miss => GetFrom(mem, b, j + 1, up)
                case found => found
              else GetFrom(mem, b, j + 1, up)
  }

  predicate LargerEqualThanFirst(b: BlockView, up: Data) {
    Compare(up, b.first) != Less
  }

  predicate LessThanFirst(b: BlockView, up: Data) {
    Compare(up, b.first) == Less
  }

  // block::get
  function Get(mem: Data, b: BlockView, up: Data): Lookup
    requires b.specials != []
  {
    if !LargerEqualThanFirst(b, up) then Miss else GetFrom(mem, b, 0, up)
  }

  method BlockGet(mem: Data, b: BlockView, up: Data) returns (r: Lookup)
    requires b.specials != []
    ensures r == Get(mem, b, up)
  {
    hide ParseSegment, LargerEqualThanPrefix, LessThanPrefix, Scan, LargerEqualThanFirst;
    if !LargerEqualThanFirst(b, up) { return Miss; }
    var last, j := b.specials[0], 0;
    while j + 1 < |b.specials|
      invariant j < |b.specials| && last == b.specials[j]
      invariant GetFrom(mem, b, 0, up) == GetFrom(mem, b, j, up)
    {
      var p1, p2 := b.specials[j], b.specials[j + 1];
      if b.size <= p1 { return Failed; }
      var seg1 := BlockSegmentParse(mem, p1, b.size);
      if seg1.Bad? || b.size <= p2 { return Failed; }
      var seg2 := BlockSegmentParse(mem, p2, b.size);
      if seg2.Bad? { return Failed; }
      if LargerEqualThanPrefix(mem, seg1.view, up) && LessThanPrefix(mem, seg2.view, up) {
        var found := ScanInterval(mem, p1, p2, up);
        if !found.Miss? { return found; }
      }
      last := p2;
      j := j + 1;
    }
    if b.size <= last { return Failed; }
    var lastSeg := BlockSegmentParse(mem, last, b.size);
    if lastSeg.Bad? { return Failed; }
    if LargerEqualThanPrefix(mem, lastSeg.view, up) {
      r := ScanInterval(mem, last, b.metaAt, up);
    } else {
      r := Miss;
    }
  }

  predicate Ascending(segs: seq<Segment>) {
    forall i, j | 0 <= i < j < |segs| :: LexLess(segs[i].prefix, segs[j].prefix)
  }

  // Memory in which these segments are stored as a block with these special segments.
  predicate Laid(mem: Data, segs: seq<Segment>, idx: seq<nat>, b: BlockView) {
    && segs != [] && At(mem, 4, SegsBytes(segs)) && ValidSegments(segs) && ValidIdx(idx, |segs|)
    && b.specials == Offsets(segs, idx) && b.metaAt == Offset(segs, 4, |segs|)
    && b.metaAt <= b.size && b.first == segs[0].prefix
  }

  lemma ProbeAt(mem: Data, segs: seq<Segment>, i: nat, up: Data, size: nat)
    requires At(mem, 4, SegsBytes(segs)) && ValidSegments(segs) && i < |segs| && Framed(up)
    requires Offset(segs, 4, |segs|) <= size
    ensures Offset(segs, 4, i) < size
    ensures ParseSegment(mem, Offset(segs, 4, i), size) == Seg(ViewOf(segs, 4, i), true)
    ensures LargerEqualThanPrefix(mem, ViewOf(segs, 4, i), up) <==> !LexLess(up, segs[i].prefix)
    ensures LessThanPrefix(mem, ViewOf(segs, 4, i), up) <==> LexLess(up, segs[i].prefix)
  {
    hide At, SegsBytes, Offset, ParseSegment, Framed, LexLess, LargerEqualThanPrefix, LessThanPrefix, ViewOf;
    OffsetMonotone(segs, 4, i + 1, |segs|);
    ParseAt(mem, segs, 4, i, size);
    PrefixAt(mem, segs, i, up);
  }

  lemma PrefixAt(mem: Data, segs: seq<Segment>, i: nat, up: Data)
    requires At(mem, 4, SegsBytes(segs)) && ValidSegments(segs) && i < |segs| && Framed(up)
    ensures LargerEqualThanPrefix(mem, ViewOf(segs, 4, i), up) <==> !LexLess(up, segs[i].prefix)
    ensures LessThanPrefix(mem, ViewOf(segs, 4, i), up) <==> LexLess(up, segs[i].prefix)
  {
    hide At, SegBytes, SegsBytes, Offset, Framed, Compare, Cut, Be16, ItemsBytes, LexLess;
    SegmentAt(mem, segs, 4, i);
    assert ValidSegment(segs[i]);
    SegmentLayout(mem, Offset(segs, 4, i), segs[i]);
    TruncatedCompareAgrees(up, mem, Offset(segs, 4, i) + 2, segs[i].prefix);
    CompareIsLexicographic(up, segs[i].prefix);
    LexTotal(up, segs[i].prefix);
  }

  // Nothing is found among segments that all follow the probe, or all precede it.
  lemma FindNothing(segs: seq<Segment>, a: nat, b: nat, up: Data)
    requires Ascending(segs) && a <= b <= |segs|
    requires a == b || LexLess(up, segs[a].prefix) || (b < |segs| && !LexLess(up, segs[b].prefix))
    ensures Find(segs, 4, a, b, up) == Miss
  {
    FindMeans(segs, 4, a, b, up);
    FindSplit(segs, 4, a, b, b, up);
    forall i | a <= i < b ensures segs[i].prefix != up {
      LexTotal(up, segs[i].prefix);
      if LexLess(up, segs[a].prefix) && a < i {
        LexTransitive(up, segs[a].prefix, segs[i].prefix);
      }
    }
  }

  // The search from the j-th special segment on agrees with the linear scan from there on.
  lemma {:induction false} GetFromIsFind(mem: Data, segs: seq<Segment>, idx: seq<nat>, b: BlockView, j: nat, up: Data)
    requires Laid(mem, segs, idx, b) && Ascending(segs) && Framed(up) && j < |idx|
    ensures GetFrom(mem, b, j, up) == Find(segs, 4, idx[j], |segs|, up)
    decreases |idx| - j
  {
    hide At, SegBytes, Offset, ParseSegment, Framed, LargerEqualThanPrefix, LessThanPrefix, Scan, Find, Ascending;
    var n := |segs|;
    ProbeAt(mem, segs, idx[j], up, b.size);
    if j + 1 == |idx| {
      ScanIsFind(mem, segs, 4, idx[j], n, up);
      if LexLess(up, segs[idx[j]].prefix) {
        FindNothing(segs, idx[j], n, up);
      }
    } else {
      ProbeAt(mem, segs, idx[j + 1], up, b.size);
      ScanIsFind(mem, segs, 4, idx[j], idx[j + 1], up);
      FindSplit(segs, 4, idx[j], idx[j + 1], n, up);
      FindSplit(segs, 4, idx[j], idx[j + 1], idx[j + 1], up);
      GetFromIsFind(mem, segs, idx, b, j + 1, up);
      if LexLess(up, segs[idx[j]].prefix) || !LexLess(up, segs[idx[j + 1]].prefix) {
        FindNothing(segs, idx[j], idx[j + 1], up);
      }
    }
  }

  // The skip search equals the linear scan over all segments, for any choice of special segments.
  lemma GetIsLinearScan(mem: Data, segs: seq<Segment>, idx: seq<nat>, b: BlockView, up: Data)
    requires Laid(mem, segs, idx, b) && Ascending(segs) && Framed(up)
    ensures Get(mem, b, up) == Scan(mem, b.specials[0], b.metaAt, up)
    ensures Get(mem, b, up) == Find(segs, 4, 0, |segs|, up)
  {
    hide At, SegBytes, Offset, ParseSegment, Framed, Scan, Find, GetFrom, Ascending;
    GetFromIsFind(mem, segs, idx, b, 0, up);
    ScanIsFind(mem, segs, 4, 0, |segs|, up);
    CompareIsLexicographic(up, segs[0].prefix);
    if LexLess(up, segs[0].prefix) {
      FindNothing(segs, 0, |segs|, up);
    }
  }
}
