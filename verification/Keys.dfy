/** db/kv_entry.cc and include/frenzykv/db/kv_entry.h: sequenced keys, user values, entries,
    their serialized forms, the key order, and the entry stream parser. */
module Keys {
  import opened Bytes

  type SeqNo = Word

  datatype SeqKey = SeqKey(seqNo: SeqNo, user: Data)
  datatype Value = Tombstone | Put(data: Data)
  datatype Entry = Entry(key: SeqKey, value: Value)

  // A user key short enough for the two byte length of a segment prefix ("2 + key").
  predicate ValidUser(user: Data) {
    1 <= |user| <= 65533
  }

  // A tombstone or a non-empty value whose entry still has a 32 bit total length.
  predicate ValidEntry(e: Entry) {
    ValidUser(e.key.user) && e.value != Put([]) && EntrySize(e) < 0x1_0000_0000
  }

  function ValueSize(v: Value): nat {
    if v.Put? then |v.data| else 0
  }

  function EntrySize(e: Entry): nat {
    4 + (2 + |e.key.user| + 4) + (4 + ValueSize(e.value))
  }

  /* ----------------------------------------------------------- serialization */

  function SerUser(user: Data): (s: Data) {
    Be16(|user| % 0x1_0000) + user
  }

  function SerKey(k: SeqKey): (s: Data) {
    SerUser(k.user) + Be32(k.seqNo)
  }

  function SerValue(v: Value): (s: Data) {
    Be32(ValueSize(v) % 0x1_0000_0000) + (if v.Put? then v.data else [])
  }

  function SerEntry(e: Entry): (s: Data)
    ensures |s| == EntrySize(e)
  {
    Be32(EntrySize(e) % 0x1_0000_0000) + (SerKey(e.key) + SerValue(e.value))
  }

  function SerEntries(es: seq<Entry>): (s: Data) {
    if es == [] then [] else SerEntry(es[0]) + SerEntries(es[1..])
  }

  // kv_user_value::parse on a span that starts with the four byte length.
  function ParseValue(s: Data): Option<Value> {
    if s == [] then Some(Tombstone)
    else if |s| < 4 then None
    else
      var n := U32(s, 0);
      if n == 0 then Some(Tombstone)
      else if |s| < 4 + n then None
      else Some(Put(s[4..4 + n]))
  }

  // What a stored value reads back as: exactly the empty value is not preserved.
  lemma ValueRoundTrip(v: Value)
    requires ValueSize(v) < 0x1_0000_0000
    ensures ParseValue(SerValue(v)) == Some(if v == Put([]) then Tombstone else v)
    ensures ParseValue(SerValue(v)) == Some(v) <==> v != Put([])
  {
    hide Be32, U32;
    var s := SerValue(v);
    assert s[0..4] == Be32(ValueSize(v));
    ReadU32(s, 0, ValueSize(v));
    if v.Put? {
      assert s[4..4 + |v.data|] == v.data;
    }
  }

  // sequenced_key(const_bspan): None where the constructor's assertion or a read fails.
  function ParseKey(s: Data): Option<SeqKey> {
    if |s| <= 6 then None
    else
      var n := U16(s, 0);
      if |s| < 2 + n + 4 then None
      else Some(SeqKey(U32(s, 2 + n), s[2..2 + n]))
  }

  lemma KeyRoundTrip(k: SeqKey, rest: Data)
    requires 1 <= |k.user| < 0x1_0000
    ensures ParseKey(SerKey(k) + rest) == Some(k)
  {
    var s := SerKey(k) + rest;
    assert s == Be16(|k.user|) + (k.user + (Be32(k.seqNo) + rest));
    assert s[0..2] == Be16(|k.user|);
    ReadU16(s, 0, |k.user|);
    assert s[2 + |k.user|..2 + |k.user| + 4] == Be32(k.seqNo);
    ReadU32(s, 2 + |k.user|, k.seqNo);
    assert s[2..2 + |k.user|] == k.user;
  }

  /* ------------------------------------------------------------------ order */

  // user_key_less: shorter keys first, keys of one length by memcmp.
  predicate UserLess(a: Data, b: Data) {
    if |a| != |b| then |a| < |b| else Compare(a, b) == Less
  }

  // sequenced_key::operator<
  predicate KeyLess(l: SeqKey, r: SeqKey) {
    if |l.user| < |r.user| then true
    else if |l.user| > |r.user| then false
    else if LexLess(l.user, r.user) then true
    else if LexLess(r.user, l.user) then false
    else l.seqNo < r.seqNo
  }

  lemma SerUserOrder(a: Data, b: Data)
    requires |a| < 0x1_0000 && |b| < 0x1_0000
    ensures LexLess(SerUser(a), SerUser(b)) <==> UserLess(a, b)
    ensures SerUser(a) == SerUser(b) <==> a == b
  {
    hide LexLess, Compare, Be16;
    Be16Order(|a|, |b|);
    CompareIsLexicographic(a, b);
    SerUserParts(a);
    SerUserParts(b);
    if |a| == |b| {
      LexSamePrefix(Be16(|a|), a, b);
      LexTotal(a, b);
    } else {
      LexHeadDecides(Be16(|a|), Be16(|b|), a, b);
    }
  }

  lemma SerUserParts(a: Data)
    requires |a| < 0x1_0000
    ensures SerUser(a) == Be16(|a|) + a && |Be16(|a|)| == 2 && SerUser(a)[..2] == Be16(|a|) && SerUser(a)[2..] == a
  {}

  // The order of sequenced keys is the byte order of their serialized forms.
  lemma KeyOrderIsByteOrder(l: SeqKey, r: SeqKey)
    requires |l.user| < 0x1_0000 && |r.user| < 0x1_0000
    ensures KeyLess(l, r) <==> LexLess(SerKey(l), SerKey(r))
    ensures KeyLess(l, r) <==> Compare(SerKey(l), SerKey(r)) == Less
    ensures l == r <==> SerKey(l) == SerKey(r)
  {
    SerKeyOrder(l, r);
    SerKeyOrder(r, l);
    CompareIsLexicographic(SerKey(l), SerKey(r));
    LexTotal(SerKey(l), SerKey(r));
    KeyOrderStrictTotal(l, r, r);
  }

  lemma SerKeyOrder(l: SeqKey, r: SeqKey)
    requires |l.user| < 0x1_0000 && |r.user| < 0x1_0000
    ensures KeyLess(l, r) <==> LexLess(SerKey(l), SerKey(r))
  {
    hide Be16, Be32, Compare;
    SerUserOrder(l.user, r.user);
    CompareIsLexicographic(l.user, r.user);
    Be32Order(l.seqNo, r.seqNo);
    LexTotal(l.user, r.user);
    if l.user == r.user {
      LexSamePrefix(SerUser(l.user), Be32(l.seqNo), Be32(r.seqNo));
    } else if |l.user| == |r.user| {
      LexHeadDecides(SerUser(l.user), SerUser(r.user), Be32(l.seqNo), Be32(r.seqNo));
    } else {
      Be16Order(|l.user|, |r.user|);
      assert SerKey(l) == Be16(|l.user|) + (l.user + Be32(l.seqNo));
      assert SerKey(r) == Be16(|r.user|) + (r.user + Be32(r.seqNo));
      LexHeadDecides(Be16(|l.user|), Be16(|r.user|), l.user + Be32(l.seqNo), r.user + Be32(r.seqNo));
    }
  }

  lemma KeyOrderStrictTotal(a: SeqKey, b: SeqKey, c: SeqKey)
    ensures !KeyLess(a, a)
    ensures KeyLess(a, b) && KeyLess(b, c) ==> KeyLess(a, c)
    ensures !(KeyLess(a, b) && KeyLess(b, a))
    ensures a == b || KeyLess(a, b) || KeyLess(b, a)
  {
    LexTotal(a.user, b.user);
    LexTotal(a.user, a.user);
    LexTotal(a.user, c.user);
    LexTotal(b.user, c.user);
    if LexLess(a.user, b.user) && LexLess(b.user, c.user) {
      LexTransitive(a.user, b.user, c.user);
    }
  }

  lemma UserOrderStrictTotal(a: Data, b: Data, c: Data)
    ensures !UserLess(a, a)
    ensures UserLess(a, b) && UserLess(b, c) ==> UserLess(a, c)
    ensures !(UserLess(a, b) && UserLess(b, a))
    ensures a == b || UserLess(a, b) || UserLess(b, a)
  {
    CompareIsLexicographic(a, b);
    CompareIsLexicographic(b, a);
    CompareIsLexicographic(b, c);
    CompareIsLexicographic(a, c);
    CompareIsLexicographic(a, a);
    KeyOrderStrictTotal(SeqKey(0, a), SeqKey(0, b), SeqKey(0, c));
  }

  // Sequenced keys are ordered by user key first and by sequence number within one user key.
  lemma KeyLessByUser(l: SeqKey, r: SeqKey)
    ensures KeyLess(l, r) <==> UserLess(l.user, r.user) || (l.user == r.user && l.seqNo < r.seqNo)
  {
    CompareIsLexicographic(l.user, r.user);
    LexTotal(l.user, r.user);
  }

  /* ------------------------------------------------- self-delimiting prefixes */

  // A byte string that starts with its own remaining length: the form of a serialized user key.
  predicate Framed(pp: Data) {
    |pp| >= 3 && U16(pp, 0) == |pp| - 2
  }

  lemma SerUserFramed(user: Data)
    requires 1 <= |user| < 0x1_0000
    ensures Framed(SerUser(user)) && SerUser(user)[2..] == user
  {
    assert SerUser(user)[0..2] == Be16(|user|);
    ReadU16(SerUser(user), 0, |user|);
  }

  // No framed string is a proper prefix of another one.
  lemma FramedPrefixFree(a: Data, b: Data)
    requires Framed(a) && Framed(b)
    ensures a <= b <==> a == b
  {
    if a <= b {
      assert a[0] == b[0] && a[1] == b[1];
    }
  }

  lemma FramedHeadsDiffer(a: Data, b: Data)
    requires Framed(a) && Framed(b) && |a| != |b|
    ensures a[..2] != b[..2]
  {
    assert a[0] == a[..2][0] && a[1] == a[..2][1] && b[0] == b[..2][0] && b[1] == b[..2][1];
  }

  lemma CompareByHead(a: Data, b: Data)
    requires |a| >= 2 && |b| >= 2 && a[..2] != b[..2]
    ensures Compare(a, b) == Compare(a[..2], b[..2])
  {
    assert a == a[..2] + a[2..] && b == b[..2] + b[2..];
    LexHeadDecides(a[..2], b[..2], a[2..], b[2..]);
    CompareIsLexicographic(a, b);
    CompareIsLexicographic(a[..2], b[..2]);
  }

  // Comparing with as many stored bytes as the probe has, whatever bytes follow the stored
  // prefix, gives what comparing with exactly the stored prefix gives.
  lemma TruncatedCompareAgrees(up: Data, mem: Data, at: nat, pp: Data)
    requires Framed(up) && Framed(pp) && At(mem, at, pp)
    ensures Compare(up, Cut(mem, at, |up|)) == Compare(up, pp)
  {
    var c := Cut(mem, at, |up|);
    if |up| == |pp| {
      assert c == pp;
    } else {
      FramedHeadsDiffer(up, pp);
      assert c[..2] == pp[..2] by {
        assert mem[at] == pp[0] && mem[at + 1] == pp[1];
      }
      CompareByHead(up, c);
      CompareByHead(up, pp);
    }
  }

  /* --------------------------------------------------------- entry streams */

  // kv_entry(const_bspan): None where it would read outside the buffer or assert.
  function EntryAt(buf: Data, cur: nat): Option<Entry> {
    if |buf| < cur + 6 then None
    else
      var kl := U16(buf, cur + 4);
      if kl == 0 || |buf| < cur + 6 + kl + 8 then None
      else
        var vl := U32(buf, cur + 10 + kl);
        if |buf| < cur + 14 + kl + vl then None
        else
          var key := SeqKey(U32(buf, cur + 6 + kl), buf[cur + 6..cur + 6 + kl]);
          Some(Entry(key, if vl == 0 then Tombstone else Put(buf[cur + 14 + kl..cur + 14 + kl + vl])))
  }

  // kv_entries_from_buffer from the cursor on: None where the loop would read outside the buffer.
  function EntriesFrom(buf: Data, cur: nat): Option<seq<Entry>>
    decreases |buf| - cur
  {
    if |buf| <= cur then Some([])
    else if |buf| < cur + 4 then None
    else
      var size := U32(buf, cur);
      if size == 0 then Some([])
      else
        match EntryAt(buf, cur)
        case None => None
        case Some(e) =>
          if |buf| <= cur + size then Some([e])
          else Prepend([e], EntriesFrom(buf, cur + size))
  }

  function Prepend(front: seq<Entry>, rest: Option<seq<Entry>>): Option<seq<Entry>> {
    match rest
    case None => None
    case Some(es) => Some(front + es)
  }

  lemma PrependLaws(front: seq<Entry>, e: Entry, rest: Option<seq<Entry>>)
    ensures Prepend(front, Prepend([e], rest)) == Prepend(front + [e], rest)
    ensures Prepend([], rest) == rest
    ensures Prepend(front, Some([])) == Some(front)
  {
    assert front + [] == front;
    if rest.Some? {
      assert front + ([e] + rest.value) == (front + [e]) + rest.value;
      assert [] + rest.value == rest.value;
    }
  }

  // The loop of kv_entries_from_buffer, next_serialized_entry_beg included.
  method KvEntriesFromBuffer(buf: Data) returns (r: Option<seq<Entry>>)
    ensures r == EntriesFrom(buf, 0)
  {
    hide EntryAt, U32;
    var cur := 0;
    var out: seq<Entry> := [];
    PrependLaws([], Entry(SeqKey(0, []), Tombstone), EntriesFrom(buf, 0));
    while cur < |buf|
      invariant EntriesFrom(buf, 0) == Prepend(out, EntriesFrom(buf, cur))
      decreases |buf| - cur
    {
      if |buf| < cur + 4 { return None; }
      var size := U32(buf, cur);
      var e := if size == 0 then None else EntryAt(buf, cur);
      PrependLaws(out, if e.Some? then e.value else Entry(SeqKey(0, []), Tombstone), EntriesFrom(buf, cur + size));
      if size == 0 { return Some(out); }
      if e.None? { return None; }
      out := out + [e.value];
      if |buf| <= cur + size { return Some(out); }
      cur := cur + size;
    }
    PrependLaws(out, Entry(SeqKey(0, []), Tombstone), None);
    return Some(out);
  }

  lemma KeyReadsBack(buf: Data, at: nat, k: SeqKey)
    requires |k.user| < 0x1_0000 && At(buf, at, SerKey(k))
    ensures U16(buf, at) == |k.user|
    ensures At(buf, at + 2, k.user)
    ensures U32(buf, at + 2 + |k.user|) == k.seqNo
  {
    AtSplit(buf, at, SerUser(k.user), Be32(k.seqNo));
    AtSplit(buf, at, Be16(|k.user|), k.user);
    ReadU16(buf, at, |k.user|);
    ReadU32(buf, at + 2 + |k.user|, k.seqNo);
  }

  lemma ValueReadsBack(buf: Data, at: nat, v: Value)
    requires ValueSize(v) < 0x1_0000_0000 && At(buf, at, SerValue(v))
    ensures U32(buf, at) == ValueSize(v)
    ensures v.Put? ==> At(buf, at + 4, v.data)
  {
    var data := if v.Put? then v.data else [];
    AtSplit(buf, at, Be32(|data|), data);
    ReadU32(buf, at, |data|);
  }

  lemma EntryReadsBack(buf: Data, cur: nat, e: Entry)
    requires ValidEntry(e) && At(buf, cur, SerEntry(e))
    ensures U32(buf, cur) == EntrySize(e) > 0
    ensures EntryAt(buf, cur) == Some(e)
  {
    hide Be16, Be32, U16, U32;
    AtSplit(buf, cur, Be32(EntrySize(e)), SerKey(e.key) + SerValue(e.value));
    ReadU32(buf, cur, EntrySize(e));
    AtSplit(buf, cur + 4, SerKey(e.key), SerValue(e.value));
    KeyReadsBack(buf, cur + 4, e.key);
    ValueReadsBack(buf, cur + 10 + |e.key.user|, e.value);
  }

  lemma SerEntriesNonEmpty(es: seq<Entry>)
    ensures SerEntries(es) == [] <==> es == []
  {}

  // Entries written back to back read back as themselves, at the end of the buffer or
  // before an end-of-file mark of four zero bytes followed by anything.
  lemma {:induction false} EntriesRoundTrip(buf: Data, cur: nat, es: seq<Entry>, tail: Data)
    requires forall e :: e in es ==> ValidEntry(e)
    requires tail == [] || [0, 0, 0, 0] <= tail
    requires cur <= |buf| && buf[cur..] == SerEntries(es) + tail
    ensures EntriesFrom(buf, cur) == Some(es)
    decreases |es|
  {
    hide EntryAt, SerEntry, ValidEntry, U32;
    if es == [] {
      assert buf[cur..] == tail;
      if tail != [] {
        assert buf[cur] == tail[0] && buf[cur + 1] == tail[1] && buf[cur + 2] == tail[2] && buf[cur + 3] == tail[3];
        ZeroField(buf, cur);
      }
    } else {
      var e, size := es[0], EntrySize(es[0]);
      var after := SerEntries(es[1..]) + tail;
      FirstEntry(buf, cur, es, tail);
      EntryReadsBack(buf, cur, e);
      EntriesRoundTrip(buf, cur + size, es[1..], tail);
      assert es == [e] + es[1..];
      if |buf| <= cur + size {
        SerEntriesNonEmpty(es[1..]);
        assert es == [e];
      }
    }
  }

  lemma FirstEntry(buf: Data, cur: nat, es: seq<Entry>, tail: Data)
    requires cur <= |buf| && es != [] && buf[cur..] == SerEntries(es) + tail
    ensures At(buf, cur, SerEntry(es[0]))
    ensures buf[cur + EntrySize(es[0])..] == SerEntries(es[1..]) + tail
    ensures |buf| <= cur + EntrySize(es[0]) ==> SerEntries(es[1..]) == [] && tail == []
  {
    hide EntrySize, SerEntry;
    var size := EntrySize(es[0]);
    var after := SerEntries(es[1..]) + tail;
    assert buf[cur..] == SerEntry(es[0]) + after;
    assert buf[cur..cur + size] == buf[cur..][..size] == SerEntry(es[0]);
    assert buf[cur + size..] == buf[cur..][size..] == after;
  }

  lemma {:induction false} SerEntriesAppend(a: seq<Entry>, b: seq<Entry>)
    ensures SerEntries(a + b) == SerEntries(a) + SerEntries(b)
  {
    if a == [] {
      assert a + b == b;
    } else {
      assert (a + b)[1..] == a[1..] + b;
      SerEntriesAppend(a[1..], b);
    }
  }
}
