/** From entries to stored blocks and back (persistent/block.cc): block_builder, the block
    image with its checksum and compression, and what reading a stored block returns. */
module BlockFiles {
  import opened Bytes
  import opened Keys
  import opened Segments
  import opened Blocks

  /* ----------------------------------------------------- entries and segments */

  // What a segment stores for one entry: sequence number and serialized value.
  function Item(e: Entry): Data {
    Be32(e.key.seqNo) + SerValue(e.value)
  }

  function AddItem(segs: seq<Segment>, pp: Data, item: Data): seq<Segment> {
    if segs != [] && segs[|segs| - 1].prefix == pp then
      var last := segs[|segs| - 1];
      segs[..|segs| - 1] + [Segment(pp, last.items + [item])]
    else segs + [Segment(pp, [item])]
  }

  function Group(es: seq<Entry>): seq<Segment> {
    if es == [] then []
    else
      var e := es[|es| - 1];
      AddItem(Group(es[..|es| - 1]), SerUser(e.key.user), Item(e))
  }

  // Entries whose user keys never decrease: what the builder asserts of its caller.
  predicate UserOrdered(es: seq<Entry>) {
    forall i, j | 0 <= i < j < |es| :: es[i].key.user == es[j].key.user || UserLess(es[i].key.user, es[j].key.user)
  }

  predicate ValidEntries(es: seq<Entry>) {
    forall i | 0 <= i < |es| :: ValidEntry(es[i])
  }

  // The stored items of one user key, in insertion order.
  function ItemsOf(es: seq<Entry>, user: Data): seq<Data> {
    if es == [] then []
    else
      var e := es[|es| - 1];
      ItemsOf(es[..|es| - 1], user) + (if e.key.user == user then [Item(e)] else [])
  }

  // entries_from_block_segment for one item.
  function DecodeItem(user: Data, item: Data): Option<Entry> {
    if |item| < 4 then None
    else
      match ParseValue(item[4..])
      case None => None
      case Some(v) => Some(Entry(SeqKey(U32(item, 0), user), v))
  }

  function DecodeItems(user: Data, items: seq<Data>): Option<seq<Entry>> {
    if items == [] then Some([])
    else
      match DecodeItem(user, items[0])
      case None => None
      case Some(e) => Prepend([e], DecodeItems(user, items[1..]))
  }

  function DecodeSegment(prefix: Data, items: seq<Data>): Option<seq<Entry>> {
    if |prefix| < 2 then None else DecodeItems(prefix[2..], items)
  }

  function Join(a: Option<seq<Entry>>, b: Option<seq<Entry>>): Option<seq<Entry>> {
    match a
    case None => None
    case Some(es) => Prepend(es, b)
  }

  function DecodeSegments(segs: seq<Segment>): Option<seq<Entry>> {
    if segs == [] then Some([])
    else Join(DecodeSegment(segs[0].prefix, segs[0].items), DecodeSegments(segs[1..]))
  }

  // block::entries over the segments of [from, sentinel).
  function EntriesOf(mem: Data, from: nat, sentinel: nat): Option<seq<Entry>>
    decreases sentinel - from
  {
    if sentinel <= from then Some([])
    else
      match ParseSegment(mem, from, sentinel)
      case Bad => None
      case Seg(v, whole) =>
        if !whole then None
        else Join(DecodeSegment(v.prefix, v.items), EntriesOf(mem, from + v.size, sentinel))
  }

  lemma ItemDecodes(e: Entry)
    requires ValidEntry(e)
    ensures DecodeItem(e.key.user, Item(e)) == Some(e)
    ensures 0 < |Item(e)| < 0x1_0000_0000
  {
    hide Be32, U32;
    assert Item(e)[4..] == SerValue(e.value);
    assert Item(e)[0..4] == Be32(e.key.seqNo);
    ReadU32(Item(e), 0, e.key.seqNo);
    ValueRoundTrip(e.value);
  }

  lemma {:induction false} DecodeItemsAppend(user: Data, items: seq<Data>, item: Data)
    ensures DecodeItems(user, items + [item]) ==
            Join(DecodeItems(user, items), match DecodeItem(user, item) case None => None case Some(e) => Some([e]))
  {
    hide DecodeItem;
    if items == [] {
      assert items + [item] == [item];
      assert DecodeItems(user, [item][1..]) == Some([]);
      JoinAssoc(match DecodeItem(user, item) case None => None case Some(e) => Some([e]), None, None);
    } else {
      assert (items + [item])[1..] == items[1..] + [item];
      DecodeItemsAppend(user, items[1..], item);
      JoinAssoc(match DecodeItem(user, items[0]) case None => None case Some(e) => Some([e]),
        DecodeItems(user, items[1..]), match DecodeItem(user, item) case None => None case Some(e) => Some([e]));
    }
  }

  lemma JoinAssoc(a: Option<seq<Entry>>, b: Option<seq<Entry>>, c: Option<seq<Entry>>)
    ensures Join(a, Join(b, c)) == Join(Join(a, b), c)
    ensures Join(a, Some([])) == a && Join(Some([]), a) == a
  {
    if a.Some? && b.Some? && c.Some? {
      assert a.value + (b.value + c.value) == (a.value + b.value) + c.value;
    }
    if a.Some? {
      assert a.value + [] == a.value && [] + a.value == a.value;
    }
  }

  lemma {:induction false} DecodeSegmentsAppend(segs: seq<Segment>, s: Segment)
    ensures DecodeSegments(segs + [s]) == Join(DecodeSegments(segs), DecodeSegment(s.prefix, s.items))
  {
    hide DecodeSegment, Join;
    JoinAssoc(DecodeSegment(s.prefix, s.items), None, None);
    if segs == [] {
      assert segs + [s] == [s];
    } else {
      assert (segs + [s])[1..] == segs[1..] + [s];
      DecodeSegmentsAppend(segs[1..], s);
      JoinAssoc(DecodeSegment(segs[0].prefix, segs[0].items), DecodeSegments(segs[1..]),
                DecodeSegment(s.prefix, s.items));
    }
  }

  lemma DecodeAddItem(segs: seq<Segment>, e: Entry)
    requires ValidEntry(e)
    ensures DecodeSegments(AddItem(segs, SerUser(e.key.user), Item(e))) == Join(DecodeSegments(segs), Some([e]))
  {
    hide DecodeItem, DecodeItems, DecodeSegments, SerUser, Item, Join;
    var pp, item := SerUser(e.key.user), Item(e);
    ItemDecodes(e);
    SerUserFramed(e.key.user);
    if segs != [] && segs[|segs| - 1].prefix == pp {
      var last := segs[|segs| - 1];
      assert segs == segs[..|segs| - 1] + [last];
      DecodeSegmentsAppend(segs[..|segs| - 1], last);
      DecodeSegmentsAppend(segs[..|segs| - 1], Segment(pp, last.items + [item]));
      DecodeItemsAppend(e.key.user, last.items, item);
      JoinAssoc(DecodeSegments(segs[..|segs| - 1]), DecodeSegment(last.prefix, last.items), Some([e]));
    } else {
      DecodeSegmentsAppend(segs, Segment(pp, [item]));
      OneItem(e);
    }
  }

  lemma OneItem(e: Entry)
    requires DecodeItem(e.key.user, Item(e)) == Some(e)
    ensures DecodeItems(e.key.user, [Item(e)]) == Some([e])
  {
    assert [Item(e)][1..] == [];
    assert [e] + [] == [e];
  }

  // Decoding the segments that entries were grouped into gives the entries back.
  lemma {:induction false} GroupDecodes(es: seq<Entry>)
    requires ValidEntries(es)
    ensures DecodeSegments(Group(es)) == Some(es)
  {
    if es != [] {
      hide AddItem, Item, SerUser, DecodeSegments;
      var front, e := es[..|es| - 1], es[|es| - 1];
      GroupDecodes(front);
      DecodeAddItem(Group(front), e);
      assert front + [e] == es;
    }
  }

  // Entries in order make segments that are well formed and strictly ascending.
  lemma {:induction false} GroupAscends(es: seq<Entry>)
    requires ValidEntries(es) && UserOrdered(es)
    ensures ValidSegments(Group(es)) && Ascending(Group(es))
    ensures es != [] ==> Group(es) != [] && Group(es)[|Group(es)| - 1].prefix == SerUser(es[|es| - 1].key.user)
  {
    hide Item, SerUser, Framed, LexLess, UserLess, ValidEntry;
    if |es| <= 1 {
      if es != [] { GroupOne(es[0]); assert es == [es[0]]; }
    } else {
      hide AddItem, Ascending, ValidSegments;
      var front, e := es[..|es| - 1], es[|es| - 1];
      GroupAscends(front);
      assert front[|front| - 1] == es[|es| - 2];
      GroupNext(Group(front), front[|front| - 1], e);
    }
  }

  lemma GroupOne(e: Entry)
    requires ValidEntry(e)
    ensures var segs := Group([e]);
              ValidSegments(segs) && Ascending(segs) && |segs| == 1 && segs[0].prefix == SerUser(e.key.user)
  {
    hide Item, SerUser, Framed, ValidEntry;
    assert [e][..0] == [];
    ItemDecodes(e);
    SerUserLength(e);
    SerUserFramed(e.key.user);
  }

  lemma GroupNext(segs: seq<Segment>, prev: Entry, e: Entry)
    requires segs != [] && ValidSegments(segs) && Ascending(segs) && segs[|segs| - 1].prefix == SerUser(prev.key.user)
    requires ValidEntry(prev) && ValidEntry(e) && (prev.key.user == e.key.user || UserLess(prev.key.user, e.key.user))
    ensures var r := AddItem(segs, SerUser(e.key.user), Item(e));
            ValidSegments(r) && Ascending(r) && r != [] && r[|r| - 1].prefix == SerUser(e.key.user)
  {
    hide Item, SerUser, Framed, LexLess, UserLess, ValidEntry, DecodeItem, Ascending, ValidSegments;
    ItemDecodes(e);
    SerUserLength(e);
    SerUserFramed(e.key.user);
    SerUserLength(prev);
    SerUserOrder(prev.key.user, e.key.user);
    AddItemAscends(segs, SerUser(e.key.user), Item(e));
  }

  lemma SerUserLength(e: Entry)
    requires ValidEntry(e)
    ensures 1 <= |e.key.user| <= 65533 && |SerUser(e.key.user)| == 2 + |e.key.user|
  {}

  lemma AddItemAscends(segs: seq<Segment>, pp: Data, item: Data)
    requires segs != [] && Ascending(segs) && ValidSegments(segs)
    requires Framed(pp) && |pp| < 0x1_0000 && 0 < |item| < 0x1_0000_0000
    requires segs[|segs| - 1].prefix == pp || LexLess(segs[|segs| - 1].prefix, pp)
    ensures ValidSegments(AddItem(segs, pp, item)) && Ascending(AddItem(segs, pp, item))
  {
    hide Framed, LexLess;
    var last := segs[|segs| - 1];
    if last.prefix == pp {
      LastGrows(segs, item);
    } else {
      SegmentFollows(segs, Segment(pp, [item]));
    }
  }

  lemma LastGrows(segs: seq<Segment>, item: Data)
    requires segs != [] && Ascending(segs) && ValidSegments(segs) && 0 < |item| < 0x1_0000_0000
    ensures var last := segs[|segs| - 1];
            var r := segs[..|segs| - 1] + [Segment(last.prefix, last.items + [item])];
            ValidSegments(r) && Ascending(r)
  {
    hide Framed, LexLess;
    var last := segs[|segs| - 1];
    var r := segs[..|segs| - 1] + [Segment(last.prefix, last.items + [item])];
    forall i | 0 <= i < |r| ensures ValidSegment(r[i]) && r[i].prefix == segs[i].prefix {
      assert ValidSegment(segs[i]);
    }
  }

  lemma SegmentFollows(segs: seq<Segment>, s: Segment)
    requires segs != [] && Ascending(segs) && ValidSegments(segs) && ValidSegment(s)
    requires LexLess(segs[|segs| - 1].prefix, s.prefix)
    ensures ValidSegments(segs + [s]) && Ascending(segs + [s])
  {
    hide LexLess, ValidSegment;
    var last := segs[|segs| - 1];
    forall i | 0 <= i < |segs| ensures LexLess(segs[i].prefix, s.prefix) {
      if i < |segs| - 1 {
        LexTransitive(segs[i].prefix, last.prefix, s.prefix);
      }
    }
  }

  // The segment with this prefix exists exactly when there are items, and holds them.
  predicate HoldsItems(segs: seq<Segment>, pp: Data, items: seq<Data>) {
    && (items == [] ==> forall i | 0 <= i < |segs| :: segs[i].prefix != pp)
    && (items != [] ==> Segment(pp, items) in segs)
  }

  // A segment of the grouped entries holds exactly its user key's items, in insertion order.
  lemma {:induction false} GroupHolds(es: seq<Entry>, user: Data)
    requires ValidEntries(es) && UserOrdered(es) && ValidUser(user)
    ensures HoldsItems(Group(es), SerUser(user), ItemsOf(es, user))
  {
    if es != [] {
      hide Item, SerUser, Ascending, UserLess, HoldsItems, AddItem, LexLess;
      var front, e := es[..|es| - 1], es[|es| - 1];
      GroupHolds(front, user);
      GroupAscends(front);
      SerUserLength(e);
      SerUserOrder(user, e.key.user);
      if front != [] {
        SerUserLength(front[|front| - 1]);
        SerUserOrder(front[|front| - 1].key.user, e.key.user);
      }
      AddItemHolds(Group(front), e, user, ItemsOf(front, user));
    } else {
      assert Group(es) == [] && ItemsOf(es, user) == [];
    }
  }

  lemma AddItemHolds(segs: seq<Segment>, e: Entry, user: Data, items: seq<Data>)
    requires Ascending(segs) && (SerUser(user) == SerUser(e.key.user) <==> user == e.key.user)
    requires segs != [] ==>
               segs[|segs| - 1].prefix == SerUser(e.key.user) || LexLess(segs[|segs| - 1].prefix, SerUser(e.key.user))
    requires HoldsItems(segs, SerUser(user), items)
    ensures HoldsItems(AddItem(segs, SerUser(e.key.user), Item(e)), SerUser(user),
                       items + (if e.key.user == user then [Item(e)] else []))
  {
    hide Item, SerUser, LexLess;
    var pp := SerUser(e.key.user);
    var r := AddItem(segs, pp, Item(e));
    if segs != [] {
      LexTotal(segs[|segs| - 1].prefix, pp);
    }
    if items == [] {
      if user == e.key.user {
        assert items + [Item(e)] == [Item(e)];
        assert r[|r| - 1] == Segment(pp, [Item(e)]);
      } else {
        forall i | 0 <= i < |r| ensures r[i].prefix != SerUser(user) {
          if i < |segs| { assert r[i].prefix == segs[i].prefix; }
        }
      }
    } else {
      var i :| 0 <= i < |segs| && segs[i] == Segment(SerUser(user), items);
      if user == e.key.user {
        assert r[|r| - 1] == Segment(pp, items + [Item(e)]);
      } else {
        assert r[i] == segs[i] && items + [] == items;
      }
    }
  }
}
