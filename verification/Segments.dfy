/** Block segments (persistent/block.cc): the bytes block_segment_builder appends,
    block_segment::parse, the prefix comparisons, and the scan of a run of segments. */
module Segments {
  import opened Bytes
  import opened Keys

  const END_MARK: Data := [0, 0, 0, 0]

  /* What a builder put into one segment. */
  datatype Segment = Segment(prefix: Data, items: seq<Data>)

  /* What a parsed block_segment exposes: where it starts, its prefix, its items, its storage size. */
  datatype SegView = SegView(at: nat, prefix: Data, items: seq<Data>, size: nat)

  /* A constructed block_segment (whole: parse_result is success; otherwise partial), or a
     construction that throws or would read outside the memory. */
  datatype SegParse = Seg(view: SegView, whole: bool) | Bad

  datatype Lookup = Hit(view: SegView) | Miss | Failed

  /* ------------------------------------------------------------ written bytes */

  function ItemBytes(item: Data): Data {
    Be32(|item| % 0x1_0000_0000) + item
  }

  function ItemsBytes(items: seq<Data>): Data {
    if items == [] then [] else ItemBytes(items[0]) + ItemsBytes(items[1..])
  }

  // A segment that can still take items.
  function OpenBytes(s: Segment): Data {
    Be16(|s.prefix| % 0x1_0000) + s.prefix + ItemsBytes(s.items)
  }

  function SegBytes(s: Segment): Data {
    OpenBytes(s) + END_MARK
  }

  function SegsBytes(segs: seq<Segment>): Data {
    if segs == [] then [] else SegBytes(segs[0]) + SegsBytes(segs[1..])
  }

  predicate ValidSegment(s: Segment) {
    && Framed(s.prefix) && |s.prefix| < 0x1_0000
    && forall i | 0 <= i < |s.items| :: 0 < |s.items[i]| < 0x1_0000_0000
  }

  predicate ValidSegments(segs: seq<Segment>) {
    forall i | 0 <= i < |segs| :: ValidSegment(segs[i])
  }

  lemma {:induction false} ItemsBytesAppend(items: seq<Data>, item: Data)
    ensures ItemsBytes(items + [item]) == ItemsBytes(items) + ItemBytes(item)
  {
    if items == [] {
      assert items + [item] == [item];
    } else {
      assert (items + [item])[1..] == items[1..] + [item];
      ItemsBytesAppend(items[1..], item);
    }
  }

  lemma {:induction false} SegsBytesConcat(a: seq<Segment>, b: seq<Segment>)
    ensures SegsBytes(a + b) == SegsBytes(a) + SegsBytes(b)
  {
    if a == [] {
      assert a + b == b;
    } else {
      assert (a + b)[1..] == a[1..] + b;
      SegsBytesConcat(a[1..], b);
    }
  }

  lemma SegsBytesAppend(segs: seq<Segment>, s: Segment)
    ensures SegsBytes(segs + [s]) == SegsBytes(segs) + SegBytes(s)
  {
    SegsBytesConcat(segs, [s]);
    assert SegsBytes([s]) == SegBytes(s) + [];
  }

  /* ------------------------------------------------------------------ parsing */

  datatype ItemsParse = Items(items: seq<Data>, end: nat) | OutOfReach

  function PrependItems(front: seq<Data>, p: ItemsParse): ItemsParse {
    match p
    case OutOfReach => OutOfReach
    case Items(items, end) => Items(front + items, end)
  }

  // The item loop: stops at the sentinel or at four zero bytes, which it may look for past the sentinel.
  function ParseItems(mem: Data, cur: nat, sentinel: nat): (p: ItemsParse)
    ensures p.Items? ==> cur <= p.end
    decreases sentinel - cur
  {
    if sentinel <= cur then Items([], cur)
    else if |mem| < cur + 4 then OutOfReach
    else if ZeroAt(mem, cur) then Items([], cur)
    else
      var r := U32(mem, cur);
      PrependItems([Cut(mem, cur + 4, r)], ParseItems(mem, cur + 4 + r, sentinel))
  }

  // block_segment::parse on the span [from, sentinel).
  function ParseSegment(mem: Data, from: nat, sentinel: nat): (p: SegParse)
    requires from < sentinel
    ensures p.Seg? ==> p.view.size > 0 && p.view.at == from
  {
    if |mem| < from + 2 then Bad
    else
      var ppl := U16(mem, from);
      if ppl == 0 then Bad
      else
        var prefix := Cut(mem, from + 2, ppl);
        match ParseItems(mem, from + 2 + ppl, sentinel)
        case OutOfReach => Bad
        case Items(items, end) =>
          if sentinel < end then Seg(SegView(from, prefix, items, sentinel - from), false)
          else if |mem| < end + 4 then Bad
          else if ZeroAt(mem, end) then Seg(SegView(from, prefix, items, end + 4 - from), true)
          else Seg(SegView(from, prefix, items, sentinel - from), true)
  }

  lemma PrependItemsLaws(front: seq<Data>, item: Data, p: ItemsParse)
    ensures PrependItems(front, PrependItems([item], p)) == PrependItems(front + [item], p)
    ensures PrependItems([], p) == p
    ensures p.Items? && p.items == [] ==> PrependItems(front, p) == Items(front, p.end)
  {
    if p.Items? {
      assert front + ([item] + p.items) == (front + [item]) + p.items;
      assert [] + p.items == p.items;
      assert front + [] == front;
    }
  }

  // The loop of block_segment::parse.
  method BlockSegmentParse(mem: Data, from: nat, sentinel: nat) returns (r: SegParse)
    requires from < sentinel
    ensures r == ParseSegment(mem, from, sentinel)
  {
    hide U16, U32, Cut;
    if |mem| < from + 2 { return Bad; }
    var ppl := U16(mem, from);
    if ppl == 0 { return Bad; }
    var current := from + 2;
    var prefix := Cut(mem, current, ppl);
    current := current + ppl;
    ghost var start := current;
    var items: seq<Data> := [];
    PrependItemsLaws([], [], ParseItems(mem, start, sentinel));
    while current < sentinel
      invariant start <= current
      invariant ParseItems(mem, start, sentinel) == PrependItems(items, ParseItems(mem, current, sentinel))
      decreases sentinel - current
    {
      if |mem| < current + 4 { return Bad; }
      if ZeroAt(mem, current) { break; }
      var r := U32(mem, current);
      PrependItemsLaws(items, Cut(mem, current + 4, r), ParseItems(mem, current + 4 + r, sentinel));
      current := current + 4;
      items := items + [Cut(mem, current, r)];
      current := current + r;
    }
    PrependItemsLaws(items, [], ParseItems(mem, current, sentinel));
    if sentinel < current {
      return Seg(SegView(from, prefix, items, sentinel - from), false);
    }
    if |mem| < current + 4 { return Bad; }
    if ZeroAt(mem, current) {
      current := current + 4;
      return Seg(SegView(from, prefix, items, current - from), true);
    }
    return Seg(SegView(from, prefix, items, sentinel - from), true);
  }

  // The zero end mark is never taken for an item, and no item length for the end mark.
  lemma {:induction false} ParseItemsBuilt(mem: Data, cur: nat, items: seq<Data>, sentinel: nat)
    requires forall i | 0 <= i < |items| :: 0 < |items[i]| < 0x1_0000_0000
    requires At(mem, cur, ItemsBytes(items) + END_MARK)
    requires cur + |ItemsBytes(items)| + 4 <= sentinel
    ensures ParseItems(mem, cur, sentinel) == Items(items, cur + |ItemsBytes(items)|)
    ensures ZeroAt(mem, cur + |ItemsBytes(items)|)
    decreases |items|
  {
    hide Be32, U32, At, Cut, ZeroAt;
    AtSplit(mem, cur, ItemsBytes(items), END_MARK);
    if items == [] {
      EndMarkAt(mem, cur);
    } else {
      var item, rest := items[0], items[1..];
      var after := ItemsBytes(rest) + END_MARK;
      assert ItemsBytes(items) + END_MARK == Be32(|item|) + (item + after);
      AtSplit(mem, cur, Be32(|item|), item + after);
      AtSplit(mem, cur + 4, item, after);
      ItemAt(mem, cur, item);
      ParseItemsBuilt(mem, cur + 4 + |item|, rest, sentinel);
      assert items == [item] + rest;
    }
  }

  lemma EndMarkAt(mem: Data, at: nat)
    requires At(mem, at, END_MARK)
    ensures at + 4 <= |mem| && ZeroAt(mem, at)
  {
    var s := mem[at..at + 4];
    assert s[0] == mem[at] && s[1] == mem[at + 1] && s[2] == mem[at + 2] && s[3] == mem[at + 3];
  }

  lemma ItemAt(mem: Data, at: nat, item: Data)
    requires 0 < |item| < 0x1_0000_0000 && At(mem, at, Be32(|item|)) && At(mem, at + 4, item)
    ensures at + 4 <= |mem| && !ZeroAt(mem, at) && U32(mem, at) == |item|
    ensures Cut(mem, at + 4, |item|) == item
  {
    ReadU32(mem, at, |item|);
    ZeroField(mem, at);
  }

  lemma SegmentLayout(mem: Data, from: nat, s: Segment)
    requires |s.prefix| < 0x1_0000 && At(mem, from, SegBytes(s))
    ensures At(mem, from, Be16(|s.prefix|)) && At(mem, from + 2, s.prefix)
    ensures At(mem, from + 2 + |s.prefix|, ItemsBytes(s.items) + END_MARK)
    ensures |SegBytes(s)| == 2 + |s.prefix| + |ItemsBytes(s.items)| + 4
  {
    hide At, Be16;
    var pp := s.prefix;
    assert SegBytes(s) == Be16(|pp|) + (pp + (ItemsBytes(s.items) + END_MARK));
    AtSplit(mem, from, Be16(|pp|), pp + (ItemsBytes(s.items) + END_MARK));
    AtSplit(mem, from + 2, pp, ItemsBytes(s.items) + END_MARK);
  }

  lemma CutAt(mem: Data, at: nat, piece: Data)
    requires At(mem, at, piece)
    ensures Cut(mem, at, |piece|) == piece && at + |piece| <= |mem|
  {}

  lemma ParseSegmentBuilt(mem: Data, from: nat, s: Segment, sentinel: nat)
    requires ValidSegment(s) && At(mem, from, SegBytes(s)) && from + |SegBytes(s)| <= sentinel
    ensures ParseSegment(mem, from, sentinel) == Seg(SegView(from, s.prefix, s.items, |SegBytes(s)|), true)
  {
    hide Be16, U16, Framed, At, Cut, ZeroAt, SegBytes;
    var pp := s.prefix;
    FramedNonEmpty(pp);
    SegmentLayout(mem, from, s);
    CutAt(mem, from, Be16(|pp|));
    CutAt(mem, from + 2, pp);
    CutAt(mem, from + 2 + |pp|, ItemsBytes(s.items) + END_MARK);
    ReadU16(mem, from, |pp|);
    ParseItemsBuilt(mem, from + 2 + |pp|, s.items, sentinel);
  }

  lemma FramedNonEmpty(pp: Data)
    requires Framed(pp)
    ensures |pp| >= 3
  {}

  /* -------------------------------------------------------------- comparisons */

  predicate FitPublicPrefix(v: SegView, up: Data) {
    |up| <= |v.prefix| && Compare(up, v.prefix[..|up|]) == Equal
  }

  // Both take as many bytes from the stored prefix on as the probe has.
  predicate LargerEqualThanPrefix(mem: Data, v: SegView, up: Data) {
    Compare(up, Cut(mem, v.at + 2, |up|)) != Less
  }

  predicate LessThanPrefix(mem: Data, v: SegView, up: Data) {
    Compare(up, Cut(mem, v.at + 2, |up|)) == Less
  }

  lemma FitIsEquality(v: SegView, up: Data)
    requires Framed(up) && Framed(v.prefix)
    ensures FitPublicPrefix(v, up) <==> up == v.prefix
  {
    if |up| <= |v.prefix| {
      CompareIsLexicographic(up, v.prefix[..|up|]);
      FramedPrefixFree(up, v.prefix);
    }
  }

  /* --------------------------------------------------------------------- scans */

  // The search over segments_in_single_interval(from, sentinel).
  function Scan(mem: Data, from: nat, sentinel: nat, up: Data): Lookup
    decreases sentinel - from
  {
    if sentinel <= from then Miss
    else
      match ParseSegment(mem, from, sentinel)
      case Bad => Failed
      case Seg(v, whole) =>
        if !whole then Miss
        else if FitPublicPrefix(v, up) then Hit(v)
        else Scan(mem, from + v.size, sentinel, up)
  }

  method ScanInterval(mem: Data, from: nat, sentinel: nat, up: Data) returns (r: Lookup)
    ensures r == Scan(mem, from, sentinel, up)
  {
    hide ParseSegment, FitPublicPrefix;
    var current := from;
    while current < sentinel
      invariant Scan(mem, from, sentinel, up) == Scan(mem, current, sentinel, up)
      decreases sentinel - current
    {
      var p := BlockSegmentParse(mem, current, sentinel);
      if p.Bad? { return Failed; }
      if !p.whole { return Miss; }
      if FitPublicPrefix(p.view, up) { return Hit(p.view); }
      current := current + p.view.size;
    }
    return Miss;
  }

  // The first segment with this prefix among segs[a..b].
  function Find(segs: seq<Segment>, base: nat, a: nat, b: nat, up: Data): Lookup
    requires b <= |segs|
    decreases b - a
  {
    if b <= a then Miss
    else if segs[a].prefix == up then Hit(ViewOf(segs, base, a))
    else Find(segs, base, a + 1, b, up)
  }

  // Where segment i starts when the first one starts at base.
  function Offset(segs: seq<Segment>, base: nat, i: nat): nat
    requires i <= |segs|
  {
    base + |SegsBytes(segs[..i])|
  }

  function ViewOf(segs: seq<Segment>, base: nat, i: nat): SegView
    requires i < |segs|
  {
    SegView(Offset(segs, base, i), segs[i].prefix, segs[i].items, |SegBytes(segs[i])|)
  }

  lemma OffsetStep(segs: seq<Segment>, base: nat, i: nat)
    requires i < |segs|
    ensures Offset(segs, base, i + 1) == Offset(segs, base, i) + |SegBytes(segs[i])|
    ensures |SegBytes(segs[i])| >= 6
  {
    assert segs[..i + 1] == segs[..i] + [segs[i]];
    SegsBytesAppend(segs[..i], segs[i]);
  }

  lemma SegmentAt(mem: Data, segs: seq<Segment>, base: nat, i: nat)
    requires At(mem, base, SegsBytes(segs)) && i < |segs|
    ensures At(mem, Offset(segs, base, i), SegBytes(segs[i]))
  {
    hide At, SegBytes, SegsBytes;
    assert segs == segs[..i] + segs[i..];
    SegsBytesConcat(segs[..i], segs[i..]);
    AtSplit(mem, base, SegsBytes(segs[..i]), SegsBytes(segs[i..]));
    SegsBytesFirst(segs[i..]);
    AtSplit(mem, Offset(segs, base, i), SegBytes(segs[i]), SegsBytes(segs[i..][1..]));
  }

  lemma SegsBytesFirst(segs: seq<Segment>)
    requires segs != []
    ensures SegsBytes(segs) == SegBytes(segs[0]) + SegsBytes(segs[1..])
  {
    hide SegBytes;
  }

  lemma {:induction false} OffsetMonotone(segs: seq<Segment>, base: nat, i: nat, j: nat)
    requires i <= j <= |segs|
    ensures Offset(segs, base, i) + 6 * (j - i) <= Offset(segs, base, j)
    decreases j
  {
    hide Offset, SegBytes;
    if i < j {
      OffsetMonotone(segs, base, i, j - 1);
      OffsetStep(segs, base, j - 1);
    }
  }

  lemma ParseAt(mem: Data, segs: seq<Segment>, base: nat, i: nat, sentinel: nat)
    requires At(mem, base, SegsBytes(segs)) && ValidSegments(segs) && i < |segs|
    requires Offset(segs, base, i + 1) <= sentinel
    ensures Offset(segs, base, i) < sentinel
    ensures ParseSegment(mem, Offset(segs, base, i), sentinel) == Seg(ViewOf(segs, base, i), true)
  {
    hide At, SegBytes, Offset, ParseSegment;
    OffsetStep(segs, base, i);
    SegmentAt(mem, segs, base, i);
    ParseSegmentBuilt(mem, Offset(segs, base, i), segs[i], sentinel);
  }

  // Scanning written segments finds the first one whose prefix equals the probe.
  lemma {:induction false} ScanIsFind(mem: Data, segs: seq<Segment>, base: nat, a: nat, b: nat, up: Data)
    requires At(mem, base, SegsBytes(segs)) && ValidSegments(segs) && Framed(up) && a <= b <= |segs|
    ensures Scan(mem, Offset(segs, base, a), Offset(segs, base, b), up) == Find(segs, base, a, b, up)
    decreases b - a
  {
    hide At, SegBytes, Offset, ParseSegment, FitPublicPrefix, Framed;
    if a < b {
      OffsetMonotone(segs, base, a + 1, b);
      OffsetStep(segs, base, a);
      ParseAt(mem, segs, base, a, Offset(segs, base, b));
      assert ValidSegment(segs[a]);
      FitIsEquality(ViewOf(segs, base, a), up);
      ScanIsFind(mem, segs, base, a + 1, b, up);
    }
  }

  lemma {:induction false} FindSplit(segs: seq<Segment>, base: nat, a: nat, b: nat, c: nat, up: Data)
    requires a <= b <= c <= |segs|
    ensures Find(segs, base, a, c, up) == (match Find(segs, base, a, b, up)
                                           case Hit(v) => Hit(v)
                                           case _ => Find(segs, base, b, c, up))
    ensures !Find(segs, base, a, c, up).Failed?
    decreases b - a, c - b
  {
    if a < b {
      FindSplit(segs, base, a + 1, b, c, up);
    } else if b < c {
      FindSplit(segs, base, b + 1, b + 1, c, up);
    }
  }

  lemma {:induction false} FindMeans(segs: seq<Segment>, base: nat, a: nat, b: nat, up: Data)
    requires a <= b <= |segs|
    ensures Find(segs, base, a, b, up) == Miss <==> forall i | a <= i < b :: segs[i].prefix != up
    ensures forall v ::
              Find(segs, base, a, b, up) == Hit(v) ==>
              exists i | a <= i < b :: segs[i].prefix == up && v == ViewOf(segs, base, i)
    decreases b - a
  {
    if a < b {
      FindMeans(segs, base, a + 1, b, up);
    }
  }
}
