/** The memtable (table/memtable.cc) over its ordered list, and the sequence counter
    (include/frenzykv/db/snapshot.h). */
module Memtables {
  import opened Bytes
  import opened Keys
  import opened Store

  // The skip list after inserting these entries one by one.
  function InsertAll(list: seq<Entry>, es: seq<Entry>): seq<Entry> {
    if es == [] then list else InsertSorted(InsertAll(list, es[..|es| - 1]), es[|es| - 1])
  }

  function SerializedSize(es: seq<Entry>): nat {
    if es == [] then 0 else SerializedSize(es[..|es| - 1]) + EntrySize(es[|es| - 1])
  }

  // memtable::could_fit_in_impl
  predicate Fits(batch: seq<Entry>, sizeBytes: nat, bound: nat) {
    SerializedSize(batch) + sizeBytes <= bound
  }

  class Memtable {
    var list: seq<Entry>
    var sizeBytes: nat
    const bound: nat

    constructor (bound: nat)
      ensures list == [] && sizeBytes == 0 && this.bound == bound
    {
      list, sizeBytes, this.bound := [], 0, bound;
    }

    method CouldFit(batch: seq<Entry>) returns (fits: bool)
      ensures fits == Fits(batch, sizeBytes, bound)
    {
      var size := 0;
      for k := 0 to |batch|
        invariant size == SerializedSize(batch[..k])
      {
        assert batch[..k + 1][..k] == batch[..k];
        size := size + EntrySize(batch[k]);
      }
      assert batch[..|batch|] == batch;
      fits := size + sizeBytes <= bound;
    }

    // All of the batch or, when it does not fit, nothing.
    method Insert(batch: seq<Entry>) returns (ok: bool)
      modifies this
      ensures ok == Fits(batch, old(sizeBytes), bound)
      ensures list == if ok then InsertAll(old(list), batch) else old(list)
      ensures sizeBytes == if ok then old(sizeBytes) + SerializedSize(batch) else old(sizeBytes)
    {
      ok := CouldFit(batch);
      if ok {
        for k := 0 to |batch|
          invariant list == InsertAll(old(list), batch[..k]) && sizeBytes == old(sizeBytes) + SerializedSize(batch[..k])
        {
          assert batch[..k + 1][..k] == batch[..k];
          sizeBytes := sizeBytes + EntrySize(batch[k]);
          list := InsertSorted(list, batch[k]);
        }
        assert batch[..|batch|] == batch;
      }
    }

    // find_last_less_equal, and its key must be the one asked for.
    method Get(key: SeqKey) returns (r: Option<Entry>)
      ensures r == MemGet(list, key.user, key.seqNo)
    {
      hide KeyLess;
      var k: nat := |list|;
      assert list[..|list|] == list;
      while k > 0 && KeyLess(key, list[k - 1].key)
        invariant k <= |list| && FindLastLessEqual(list, key) == FindLastLessEqual(list[..k], key)
      {
        assert list[..k][..k - 1] == list[..k - 1];
        k := k - 1;
      }
      assert SeqKey(key.seqNo, key.user) == key;
      if k > 0 && list[k - 1].key.user == key.user {
        return Some(list[k - 1]);
      }
      return None;
    }
  }

  // snapshot_center: the counter of sequence numbers.
  class SnapshotCenter {
    var newestUnused: Word

    constructor ()
      ensures newestUnused == 1
    {
      newestUnused := 1;
    }

    // fetch_add on 32 bits
    method GetNextUnused(count: nat) returns (first: Word)
      requires count < 0xffff_ffff
      modifies this
      ensures first == old(newestUnused) && newestUnused == (old(newestUnused) + count) % 0x1_0000_0000
    {
      first := newestUnused;
      newestUnused := (newestUnused + count) % 0x1_0000_0000;
    }

    function LatestUsed(): Word
      reads this
    {
      (newestUnused - 1) % 0x1_0000_0000
    }
  }

  // write_batch with its first sequence number set.
  function Numbered(batch: seq<Write>, first: nat): seq<Entry>
    requires first + |batch| <= 0x1_0000_0000
    decreases |batch|
  {
    if batch == [] then []
    else Numbered(batch[..|batch| - 1], first) +
         [Entry(SeqKey(first + |batch| - 1, batch[|batch| - 1].user), batch[|batch| - 1].value)]
  }

  lemma NumberedSnoc(front: seq<Write>, last: Write, first: nat)
    requires first + |front| + 1 <= 0x1_0000_0000
    ensures Numbered(front + [last], first) ==
              Numbered(front, first) + [Entry(SeqKey(first + |front|, last.user), last.value)]
  {
    assert (front + [last])[..|front|] == front;
  }

  lemma InsertAllSnoc(list: seq<Entry>, es: seq<Entry>, e: Entry)
    ensures InsertAll(list, es + [e]) == InsertSorted(InsertAll(list, es), e)
    ensures SerializedSize(es + [e]) == SerializedSize(es) + EntrySize(e)
  {
    assert (es + [e])[..|es|] == es;
  }

  // Writing a numbered batch to the memtable is writing its entries one after the other to the store.
  lemma {:induction false} PutAllNumbered(s: State, batch: seq<Write>)
    requires s.nextSeq + |batch| <= 0x1_0000_0000
    ensures PutAll(s, batch) == s.(mem := InsertAll(s.mem, Numbered(batch, s.nextSeq)),
                                   memBytes := s.memBytes + SerializedSize(Numbered(batch, s.nextSeq)),
                                   nextSeq := s.nextSeq + |batch|)
    ensures SerializedSize(Numbered(batch, s.nextSeq)) == BatchBytes(batch)
    decreases |batch|
  {
    hide InsertSorted, PutAll, BatchBytes, Numbered, InsertAll, SerializedSize;
    if batch == [] {
      NothingPut(s);
    } else {
      var front, last := batch[..|batch| - 1], batch[|batch| - 1];
      assert batch == front + [last];
      var es, e := Numbered(front, s.nextSeq), Entry(SeqKey(s.nextSeq + |front|, last.user), last.value);
      PutAllNumbered(s, front);
      PutAllSnoc(s, front, last);
      BytesSnoc(front, last);
      NumberedSnoc(front, last, s.nextSeq);
      InsertAllSnoc(s.mem, es, e);
    }
  }

  lemma NothingPut(s: State)
    requires s.nextSeq <= 0x1_0000_0000
    ensures PutAll(s, []) == s && Numbered([], s.nextSeq) == [] && InsertAll(s.mem, []) == s.mem
    ensures SerializedSize([]) == 0 == BatchBytes([])
  {}

  lemma {:induction false} PutAllSnoc(s: State, front: seq<Write>, last: Write)
    requires s.nextSeq + |front| + 1 <= 0x1_0000_0000
    ensures PutAll(s, front).nextSeq == s.nextSeq + |front|
    ensures PutAll(s, front + [last]) == PutOne(PutAll(s, front), last)
    decreases |front|
  {
    if front == [] {
      assert front + [last] == [last];
      assert PutAll(s, [last]) == PutAll(PutOne(s, last), []);
    } else {
      PutAllSnoc(PutOne(s, front[0]), front[1..], last);
      assert (front + [last])[1..] == front[1..] + [last];
    }
  }

  lemma {:induction false} BytesSnoc(front: seq<Write>, last: Write)
    ensures BatchBytes(front + [last]) == BatchBytes(front) + EntrySize(Entry(SeqKey(0, last.user), last.value))
  {
    if front == [] {
      assert front + [last] == [last];
    } else {
      BytesSnoc(front[1..], last);
      assert (front + [last])[1..] == front[1..] + [last];
    }
  }
}
