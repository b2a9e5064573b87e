/** Reading SSTable files (table/sstable.cc): meta data, block offsets, the search for a version,
    and the extraction of all entries, with the files sstable_builder writes as their input. */
module TableReads {
  import opened Bytes
  import opened Keys
  import opened Segments
  import opened Blocks
  import opened BlockFiles
  import opened BlockImages
  import opened TableImages
  import opened TableLookup

  datatype Meta = Meta(first: Data, last: Data, filter: Data)
  datatype Extent = Extent(offset: nat, length: nat)
  datatype Table = Table(meta: Meta, extents: seq<Extent>)

  /* What the buffer holds behind the bytes that were read at each offset of a file. */
  type Junk = nat -> Data

  /* ---------------------------------------------------------------- meta data */

  // kv_user_value::parse on the first item behind its sequence number, then value().
  function FrontValue(items: seq<Data>): Option<Data> {
    if items == [] || |items[0]| < 4 then None
    else
      match ParseValue(items[0][4..])
      case None => None
      case Some(v) => if v.Put? then Some(v.data) else None
  }

  // What one meta segment contributes.
  function NoteMeta(m: Meta, prefix: Data, items: seq<Data>): Option<Meta> {
    var front := FrontValue(items);
    if prefix == SerUser(FILTER_UK) then
      if front.None? then None else Some(m.(filter := front.value))
    else if prefix == SerUser(LAST_UK) then
      if front.None? then None else Some(m.(last := front.value))
    else if prefix == SerUser(FIRST_UK) then
      if front.None? then None else Some(m.(first := front.value))
    else Some(m)
  }

  function CollectMeta(mem: Data, from: nat, sentinel: nat, m: Meta): Option<Meta>
    decreases sentinel - from
  {
    if sentinel <= from then Some(m)
    else
      match ParseSegment(mem, from, sentinel)
      case Bad => None
      case Seg(v, whole) =>
        if !whole then Some(m)
        else
          match NoteMeta(m, v.prefix, v.items)
          case None => None
          case Some(m') => CollectMeta(mem, from + v.size, sentinel, m')
  }

  // The loop of sstable::parse_meta_data over the segments of the meta block.
  method MetaLoop(mem: Data, from: nat, sentinel: nat) returns (r: Option<Meta>)
    ensures r == CollectMeta(mem, from, sentinel, Meta([], [], []))
  {
    hide ParseSegment, NoteMeta;
    var current, m := from, Meta([], [], []);
    while current < sentinel
      invariant CollectMeta(mem, from, sentinel, Meta([], [], [])) == CollectMeta(mem, current, sentinel, m)
      decreases sentinel - current
    {
      var p := BlockSegmentParse(mem, current, sentinel);
      if p.Bad? { return None; }
      if !p.whole { return Some(m); }
      var noted := NoteMeta(m, p.view.prefix, p.view.items);
      if noted.None? { return None; }
      m := noted.value;
      current := current + p.view.size;
    }
    return Some(m);
  }

  function PrependExtents(front: seq<Extent>, rest: Option<seq<Extent>>): Option<seq<Extent>> {
    match rest
    case None => None
    case Some(xs) => Some(front + xs)
  }

  // sstable::generate_block_offsets_impl
  function BlockOffsets(file: Data, offset: nat, mbo: nat): Option<seq<Extent>>
    decreases mbo - offset
  {
    if mbo <= offset then Some([])
    else if |file| < offset + 4 || U32(file, offset) == 0 then None
    else
      var btl := U32(file, offset);
      PrependExtents([Extent(offset, btl)], BlockOffsets(file, offset + btl, mbo))
  }

  method GenerateBlockOffsets(file: Data, mbo: nat) returns (r: Option<seq<Extent>>)
    ensures r == BlockOffsets(file, 0, mbo)
  {
    hide U32;
    var offset := 0;
    var out: seq<Extent> := [];
    PrependExtentsLaws([], Extent(0, 0), BlockOffsets(file, 0, mbo));
    while offset < mbo
      invariant BlockOffsets(file, 0, mbo) == PrependExtents(out, BlockOffsets(file, offset, mbo))
      decreases mbo - offset
    {
      if |file| < offset + 4 { return None; }
      var btl := U32(file, offset);
      if btl == 0 { return None; }
      PrependExtentsLaws(out, Extent(offset, btl), BlockOffsets(file, offset + btl, mbo));
      out := out + [Extent(offset, btl)];
      offset := offset + btl;
    }
    PrependExtentsLaws(out, Extent(0, 0), None);
    return Some(out);
  }

  lemma PrependExtentsLaws(front: seq<Extent>, x: Extent, rest: Option<seq<Extent>>)
    ensures PrependExtents(front, PrependExtents([x], rest)) == PrependExtents(front + [x], rest)
    ensures PrependExtents([], rest) == rest
    ensures PrependExtents(front, Some([])) == Some(front)
  {
    assert front + [] == front;
    if rest.Some? {
      assert front + ([x] + rest.value) == (front + [x]) + rest.value;
      assert [] + rest.value == rest.value;
    }
  }

  /* parse_meta_data: true with the table read, false, or stopped by an assertion. */
  datatype ParseResult = Parsed(table: Table) | Refused | Aborted

  // The meta block of a file with a footer: None where an assertion fails.
  function ReadMeta(cfg: Config, file: Data, junk: Junk): Option<Meta>
    requires |file| >= 12
  {
    var mbo := U64(file, |file| - 12);
    if |file| - 12 < mbo then None
    else
      var storage := file[mbo..|file| - 12];
      match StoredContent(storage)
      case None => None
      case Some(content) =>
        if cfg.crc(content) != U32(storage, |content| + 5) then None
        else
          match OpenBlock(storage + junk(mbo), |storage|)
          case None => None
          case Some(b) =>
            if |b.specials| != 1 then None
            else CollectMeta(storage + junk(mbo), b.specials[0], b.metaAt, Meta([], [], []))
  }

  // sstable::parse_meta_data: a wrong magic number or a block of length zero is refused, everything
  // else that is wrong runs into an assertion.
  function ParseTable(cfg: Config, file: Data, junk: Junk): ParseResult {
    if |file| < 12 then Aborted
    else if U32(file, |file| - 4) != MAGIC then Refused
    else
      match ReadMeta(cfg, file, junk)
      case None => Aborted
      case Some(m) =>
        if m.filter == [] || m.last == [] || m.first == [] then Aborted
        else
          match BlockOffsets(file, 0, U64(file, |file| - 12))
          case None => Refused
          case Some(extents) => Parsed(Table(m, extents))
  }

  method ParseMetaData(cfg: Config, file: Data, junk: Junk) returns (r: ParseResult)
    ensures r == ParseTable(cfg, file, junk)
  {
    hide U32, U64, ParseSegment, CollectMeta, OpenBlock, BlockOffsets, StoredContent;
    if |file| < 12 { return Aborted; }
    var mbo := U64(file, |file| - 12);
    if U32(file, |file| - 4) != MAGIC { return Refused; }
    if |file| - 12 < mbo { return Aborted; }
    var storage := file[mbo..|file| - 12];
    var content := StoredContent(storage);
    if content.None? { return Aborted; }
    StoredContentInside(storage);
    if cfg.crc(content.value) != U32(storage, |content.value| + 5) { return Aborted; }
    var b := BlockOpen(storage + junk(mbo), |storage|);
    if b.None? || |b.value.specials| != 1 { return Aborted; }
    var m := MetaLoop(storage + junk(mbo), b.value.specials[0], b.value.metaAt);
    if m.None? || m.value.filter == [] || m.value.last == [] || m.value.first == [] { return Aborted; }
    var extents := GenerateBlockOffsets(file, mbo);
    if extents.None? { return Refused; }
    return Parsed(Table(m.value, extents.value));
  }

  lemma StoredContentInside(storage: Data)
    requires StoredContent(storage).Some?
    ensures |StoredContent(storage).value| + 9 <= |storage|
  {}

  /* ------------------------------------------------------------------- lookups */

  // get_block for an entry of the offset table: the bytes are read in full, checked and unpacked.
  function BlockAt(cfg: Config, file: Data, x: Extent, junk: Junk): Option<(Data, BlockView)> {
    if |file| < x.offset + x.length then None else OpenStored(cfg, file[x.offset..x.offset + x.length], junk(x.offset))
  }

  // The walk of sstable::get_segment from the j-th block on.
  function SegmentFrom(cfg: Config, file: Data, t: Table, j: nat, up: Data, junk: Junk): Lookup
    requires j < |t.extents|
    decreases |t.extents| - j
  {
    match BlockAt(cfg, file, t.extents[j], junk)
    case None => Failed
    case Some((mem, b)) =>
      if b.specials == [] then Failed
      else if j + 1 == |t.extents| then
        if LargerEqualThanFirst(b, up) then Get(mem, b, up) else Miss
      else
        match BlockAt(cfg, file, t.extents[j + 1], junk)
        case None => Failed
        case Some((_, next)) =>
          if LargerEqualThanFirst(b, up) && LessThanFirst(next, up) then Get(mem, b, up)
          else SegmentFrom(cfg, file, t, j + 1, up, junk)
  }

  function GetSegment(cfg: TableConfig, file: Data, t: Table, user: Data, junk: Junk): Lookup {
    if !cfg.filter.mayMatch(SerUser(user), t.meta.filter) then Miss
    else if t.extents == [] then Failed
    else SegmentFrom(cfg.block, file, t, 0, SerUser(user), junk)
  }

  method TableGetSegment(cfg: TableConfig, file: Data, t: Table, user: Data, junk: Junk) returns (r: Lookup)
    ensures r == GetSegment(cfg, file, t, user, junk)
  {
    hide BlockAt, Get, LargerEqualThanFirst, LessThanFirst, SerUser;
    var up := SerUser(user);
    if !cfg.filter.mayMatch(up, t.meta.filter) { return Miss; }
    if t.extents == [] { return Failed; }
    var last := BlockAt(cfg.block, file, t.extents[0], junk);
    var j := 0;
    while j + 1 < |t.extents|
      invariant j < |t.extents| && last == BlockAt(cfg.block, file, t.extents[j], junk)
      invariant SegmentFrom(cfg.block, file, t, 0, up, junk) == SegmentFrom(cfg.block, file, t, j, up, junk)
    {
      var blk1 := BlockAt(cfg.block, file, t.extents[j + 1], junk);
      if last.None? || last.value.1.specials == [] || blk1.None? { return Failed; }
      if LargerEqualThanFirst(last.value.1, up) && LessThanFirst(blk1.value.1, up) {
        r := BlockGet(last.value.0, last.value.1, up);
        return;
      }
      last := blk1;
      j := j + 1;
    }
    if last.None? || last.value.1.specials == [] { return Failed; }
    if LargerEqualThanFirst(last.value.1, up) {
      r := BlockGet(last.value.0, last.value.1, up);
    } else {
      r := Miss;
    }
  }

  datatype Answer = Found(entry: Entry) | Absent | Broken

  // The reverse walk over a segment's items: the first decoded entry with a small enough number.
  function NewestItem(user: Data, items: seq<Data>, q: SeqNo): Answer {
    if items == [] then Absent
    else
      match DecodeItem(user, items[|items| - 1])
      case None => Broken
      case Some(e) => if e.key.seqNo <= q then Found(e) else NewestItem(user, items[..|items| - 1], q)
  }

  // sstable::get_kv_entry
  function GetKvEntry(cfg: TableConfig, file: Data, t: Table, user: Data, q: SeqNo, junk: Junk): Answer {
    match GetSegment(cfg, file, t, user, junk)
    case Failed => Broken
    case Miss => Absent
    case Hit(v) => if |v.prefix| < 2 then Broken else NewestItem(v.prefix[2..], v.items, q)
  }

  method TableGetKvEntry(cfg: TableConfig, file: Data, t: Table, user: Data, q: SeqNo, junk: Junk) returns (r: Answer)
    ensures r == GetKvEntry(cfg, file, t, user, q, junk)
  {
    hide GetSegment, DecodeItem;
    var seg := TableGetSegment(cfg, file, t, user, junk);
    if seg.Failed? { return Broken; }
    if seg.Miss? { return Absent; }
    if |seg.view.prefix| < 2 { return Broken; }
    var uk, items := seg.view.prefix[2..], seg.view.items;
    var n := |items|;
    assert items[..n] == items;
    while 0 < n
      invariant n <= |items|
      invariant NewestItem(uk, items, q) == NewestItem(uk, items[..n], q)
    {
      assert items[..n][..n - 1] == items[..n - 1];
      var e := DecodeItem(uk, items[n - 1]);
      if e.None? { return Broken; }
      if e.value.key.seqNo <= q { return Found(e.value); }
      n := n - 1;
    }
    return Absent;
  }

  /* ---------------------------------------------------------------- extraction */

  function EntriesFromBlocks(cfg: Config, file: Data, extents: seq<Extent>, junk: Junk): Option<seq<Entry>> {
    if extents == [] then Some([])
    else
      match BlockAt(cfg, file, extents[0], junk)
      case None => None
      case Some((mem, b)) =>
        if b.specials == [] then None
        else Join(EntriesOf(mem, b.specials[0], b.metaAt), EntriesFromBlocks(cfg, file, extents[1..], junk))
  }

  function Reverse(es: seq<Entry>): (r: seq<Entry>)
    ensures |r| == |es|
  {
    if es == [] then [] else Reverse(es[1..]) + [es[0]]
  }

  lemma {:induction false} ReverseAt(es: seq<Entry>, k: nat)
    requires k < |es|
    ensures Reverse(es)[k] == es[|es| - 1 - k]
  {
    if k < |es| - 1 {
      ReverseAt(es[1..], k);
    }
  }

  lemma {:induction false} ReverseConcat(a: seq<Entry>, b: seq<Entry>)
    ensures Reverse(a + b) == Reverse(b) + Reverse(a)
  {
    if a == [] {
      assert a + b == b;
    } else {
      assert (a + b)[1..] == a[1..] + b;
      ReverseConcat(a[1..], b);
    }
  }

  // get_entries_from_sstable_at_once, backwards: every entry is pushed to the front.
  method EntriesAtOnce(cfg: Config, file: Data, t: Table, junk: Junk) returns (r: Option<seq<Entry>>)
    ensures r == (match EntriesFromBlocks(cfg, file, t.extents, junk)
                  case None => None
                  case Some(es) => Some(Reverse(es)))
  {
    hide BlockAt, EntriesOf;
    var out: seq<Entry> := [];
    ghost var done: seq<Entry> := [];
    var j := 0;
    JoinAssoc(EntriesFromBlocks(cfg, file, t.extents, junk), None, None);
    assert t.extents[0..] == t.extents;
    while j < |t.extents|
      invariant j <= |t.extents| && out == Reverse(done)
      invariant EntriesFromBlocks(cfg, file, t.extents, junk) ==
                  Join(Some(done), EntriesFromBlocks(cfg, file, t.extents[j..], junk))
    {
      assert t.extents[j..][0] == t.extents[j] && t.extents[j..][1..] == t.extents[j + 1..];
      var blk := BlockAt(cfg, file, t.extents[j], junk);
      if blk.None? || blk.value.1.specials == [] { return None; }
      var es := EntriesOf(blk.value.0, blk.value.1.specials[0], blk.value.1.metaAt);
      if es.None? { return None; }
      JoinAssoc(Some(done), es, EntriesFromBlocks(cfg, file, t.extents[j + 1..], junk));
      out := PushFront(out, es.value);
      ReverseConcat(done, es.value);
      done := done + es.value;
      j := j + 1;
    }
    JoinAssoc(Some(done), None, None);
    return Some(out);
  }

  method PushFront(out: seq<Entry>, es: seq<Entry>) returns (r: seq<Entry>)
    ensures r == Reverse(es) + out
  {
    r := out;
    var k := 0;
    assert Reverse(es[..0]) + out == out;
    while k < |es|
      invariant k <= |es| && r == Reverse(es[..k]) + out
    {
      assert es[..k + 1] == es[..k] + [es[k]];
      ReverseConcat(es[..k], [es[k]]);
      assert Reverse([es[k]]) == [es[k]];
      r := [es[k]] + r;
      k := k + 1;
    }
    assert es[..k] == es;
  }

  /* ------------------------------------------------------------------ key ranges */

  // first_user_key_without_seq, last_user_key_without_seq: the stored key with eight zero bytes appended.
  function KeyWithoutSeq(uk: Data): Option<SeqKey> {
    ParseKey(uk + [0, 0, 0, 0, 0, 0, 0, 0])
  }

  // sstable::disjoint on tables with the given stored first and last keys.
  predicate Disjoint(a: Meta, b: Meta)
    requires KeyWithoutSeq(a.first).Some? && KeyWithoutSeq(a.last).Some?
    requires KeyWithoutSeq(b.first).Some? && KeyWithoutSeq(b.last).Some?
  {
    var al, ar := KeyWithoutSeq(a.first).value, KeyWithoutSeq(a.last).value;
    var bl, br := KeyWithoutSeq(b.first).value, KeyWithoutSeq(b.last).value;
    (KeyLess(al, bl) && KeyLess(ar, bl)) || (KeyLess(bl, al) && KeyLess(br, al))
  }

  lemma KeyWithoutSeqOf(user: Data)
    requires ValidUser(user)
    ensures KeyWithoutSeq(SerUser(user)) == Some(SeqKey(0, user))
  {
    var zero: Data := [0, 0, 0, 0];
    assert Be32(0) == zero;
    assert SerUser(user) + [0, 0, 0, 0, 0, 0, 0, 0] == SerKey(SeqKey(0, user)) + zero;
    KeyRoundTrip(SeqKey(0, user), zero);
  }

  // Tables of sorted entries are disjoint exactly when one ends before the other begins, and then
  // they share no user key.
  lemma DisjointMeans(a: seq<Entry>, b: seq<Entry>, fa: Data, fb: Data)
    requires a != [] && b != [] && ValidEntries(a) && ValidEntries(b) && KeySorted(a) && KeySorted(b)
    ensures var ma, mb := Meta(FirstUk(a), LastUk(a), fa), Meta(FirstUk(b), LastUk(b), fb);
            && KeyWithoutSeq(ma.first).Some? && KeyWithoutSeq(ma.last).Some?
            && KeyWithoutSeq(mb.first).Some? && KeyWithoutSeq(mb.last).Some?
            && (Disjoint(ma, mb) <==>
                  UserLess(a[|a| - 1].key.user, b[0].key.user) || UserLess(b[|b| - 1].key.user, a[0].key.user))
            && (Disjoint(ma, mb) ==> forall user :: !(Occurs(a, user) && Occurs(b, user)))
  {
    hide SerUser, KeyLess, UserLess, KeyWithoutSeq;
    var ma, mb := Meta(FirstUk(a), LastUk(a), fa), Meta(FirstUk(b), LastUk(b), fb);
    SerUserLength(a[0]); SerUserLength(a[|a| - 1]); SerUserLength(b[0]); SerUserLength(b[|b| - 1]);
    KeyWithoutSeqOf(a[0].key.user);
    KeyWithoutSeqOf(a[|a| - 1].key.user);
    KeyWithoutSeqOf(b[0].key.user);
    KeyWithoutSeqOf(b[|b| - 1].key.user);
    RangeOrder(a, b);
    RangeOrder(b, a);
  }

  lemma RangeOrder(a: seq<Entry>, b: seq<Entry>)
    requires a != [] && b != [] && KeySorted(a) && KeySorted(b)
    ensures var al, ar, bl := SeqKey(0, a[0].key.user), SeqKey(0, a[|a| - 1].key.user), SeqKey(0, b[0].key.user);
            KeyLess(al, bl) && KeyLess(ar, bl) <==> UserLess(ar.user, bl.user)
    ensures UserLess(a[|a| - 1].key.user, b[0].key.user) ==> forall user :: !(Occurs(a, user) && Occurs(b, user))
  {
    hide KeyLess, UserLess;
    var al, ar, bl := SeqKey(0, a[0].key.user), SeqKey(0, a[|a| - 1].key.user), SeqKey(0, b[0].key.user);
    KeyLessByUser(al, bl);
    KeyLessByUser(ar, bl);
    FirstIsLeast(a, |a| - 1);
    UserOrderStrictTotal(al.user, ar.user, bl.user);
    if UserLess(ar.user, bl.user) {
      forall user | Occurs(a, user) && Occurs(b, user) ensures false {
        var i :| 0 <= i < |a| && a[i].key.user == user;
        var j :| 0 <= j < |b| && b[j].key.user == user;
        LastIsGreatest(a, i);
        FirstIsLeast(b, j);
        UserOrderStrictTotal(user, ar.user, bl.user);
        UserOrderStrictTotal(ar.user, bl.user, user);
        UserOrderStrictTotal(user, bl.user, user);
      }
    }
  }

  lemma FirstIsLeast(es: seq<Entry>, i: nat)
    requires i < |es| && KeySorted(es)
    ensures es[0].key.user == es[i].key.user || UserLess(es[0].key.user, es[i].key.user)
  {
    hide KeyLess, UserLess;
    KeyLessByUser(es[0].key, es[i].key);
  }

  lemma LastIsGreatest(es: seq<Entry>, i: nat)
    requires i < |es| && KeySorted(es)
    ensures es[|es| - 1].key.user == es[i].key.user || UserLess(es[i].key.user, es[|es| - 1].key.user)
  {
    hide KeyLess, UserLess;
    KeyLessByUser(es[i].key, es[|es| - 1].key);
  }
}
