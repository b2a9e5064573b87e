/** The buffered log file and the write-ahead log on top of it (io/iouring_writable.cc in buffered
    mode, log/write_ahead_logger.cc, the serializers of db/kv_entry.cc). */
module WriteAheadLog {
  import opened Bytes
  import opened Keys
  import opened Buffers

  /* ------------------------------------------------------------- serialization */

  // The memory `was` with these bytes written from `at` on.
  ghost predicate Written(dst: array<Byte>, was: Data, at: nat, done: Data)
    reads dst
  {
    at + |done| <= |was| && dst[..] == was[..at] + done + was[at + |done|..]
  }

  lemma NothingWritten(dst: array<Byte>, at: nat)
    requires at <= dst.Length
    ensures Written(dst, dst[..], at, [])
  {}

  lemma WrittenMeans(dst: array<Byte>, was: Data, at: nat, done: Data)
    requires Written(dst, was, at, done)
    ensures at + |done| <= |was| && dst[..] == was[..at] + done + was[at + |done|..]
  {}

  lemma EntryFields(e: Entry, total: Data)
    requires EntrySize(e) < 0x1_0000_0000 && total == Be32(EntrySize(e))
    ensures total + SerKey(e.key) + SerValue(e.value) == SerEntry(e)
  {
    hide Be32, SerKey, SerValue;
  }

  lemma KeyLength(k: SeqKey)
    ensures |SerKey(k)| == 2 + |k.user| + 4
  {}

  // The next field, behind those already written.
  method PutField(field: Data, dst: array<Byte>, cursor: nat, ghost was: Data, ghost at: nat, ghost done: Data)
    requires Written(dst, was, at, done) && cursor == at + |done| && cursor + |field| <= dst.Length
    modifies dst
    ensures Written(dst, was, at, done + field)
  {
    Copy(dst, cursor, field);
    assert dst[..] == (was[..at] + done) + field + was[at + |done| + |field|..];
    assert (was[..at] + done) + field == was[..at] + (done + field);
  }

  // sequenced_key::serialize_to
  method SerializeKey(k: SeqKey, dst: array<Byte>, at: nat, ghost was: Data, ghost from: nat, ghost done: Data)
    requires Written(dst, was, from, done) && at == from + |done| && at + 2 + |k.user| + 4 <= dst.Length
    modifies dst
    ensures Written(dst, was, from, done + SerKey(k))
  {
    hide Written;
    var cursor, length := at, Be16(|k.user| % 0x1_0000);
    PutField(length, dst, cursor, was, from, done);
    cursor := cursor + 2;
    PutField(k.user, dst, cursor, was, from, done + length);
    cursor := cursor + |k.user|;
    PutField(Be32(k.seqNo), dst, cursor, was, from, done + length + k.user);
    assert done + length + k.user + Be32(k.seqNo) == done + SerKey(k);
  }

  // kv_user_value::serialize_to
  method SerializeValue(v: Value, dst: array<Byte>, at: nat, ghost was: Data, ghost from: nat, ghost done: Data)
    requires Written(dst, was, from, done) && at == from + |done| && at + 4 + ValueSize(v) <= dst.Length
    requires ValueSize(v) < 0x1_0000_0000
    modifies dst
    ensures Written(dst, was, from, done + SerValue(v))
  {
    hide Written;
    var length := Be32(ValueSize(v));
    PutField(length, dst, at, was, from, done);
    if ValueSize(v) != 0 {
      PutField(v.data, dst, at + 4, was, from, done + length);
      assert done + length + v.data == done + SerValue(v);
    } else {
      assert SerValue(v) == length;
    }
  }

  // kv_entry::serialize_to: the fields one behind the other, or nothing when there is no room.
  method SerializeTo(e: Entry, dst: array<Byte>, at: nat) returns (ok: bool)
    requires at <= dst.Length && EntrySize(e) < 0x1_0000_0000
    modifies dst
    ensures ok == (EntrySize(e) <= dst.Length - at)
    ensures ok ==> dst[..] == old(dst[..at]) + SerEntry(e) + old(dst[at + EntrySize(e)..])
    ensures !ok ==> dst[..] == old(dst[..])
  {
    hide Written, SerKey, SerValue, Be32;
    ok := EntrySize(e) <= dst.Length - at;
    if ok {
      ghost var was := dst[..];
      NothingWritten(dst, at);
      var cursor, total := at, Be32(EntrySize(e));
      PutField(total, dst, cursor, was, at, []);
      cursor := cursor + 4;
      assert [] + total == total;
      SerializeKey(e.key, dst, cursor, was, at, total);
      KeyLength(e.key);
      cursor := cursor + 2 + |e.key.user| + 4;
      SerializeValue(e.value, dst, cursor, was, at, total + SerKey(e.key));
      EntryFields(e, total);
      WrittenMeans(dst, was, at, SerEntry(e));
    }
  }

  /* ------------------------------------------------------------ the log's file */

  class IouringWritable {
    const buffer: Buffer
    var disk: Data

    ghost predicate Valid()
      reads this, buffer
    {
      buffer.Valid()
    }

    // What was written so far: on disk, and behind it what is still in the buffer.
    function Content(): Data
      requires Valid()
      reads this, buffer, buffer.storage
    {
      disk + buffer.Span()
    }

    constructor (capacity: nat)
      ensures Valid() && fresh(buffer) && fresh(buffer.storage) && buffer.storage.Length == capacity && disk == []
      ensures Content() == []
    {
      buffer := new Buffer(capacity);
      disk := [];
    }

    method FlushValid()
      requires Valid()
      modifies this, buffer`left
      ensures Valid() && Content() == old(Content()) && disk == Content() && buffer.left == buffer.storage.Length
    {
      if buffer.Size() != 0 {
        disk := disk + buffer.Span();
        buffer.Truncate();
      }
    }

    method Append(src: Data) returns (n: nat)
      requires Valid()
      modifies this, buffer`left, buffer.storage
      ensures Valid() && n == |src| && Content() == old(Content()) + src
      ensures disk == if |src| < old(buffer.left) then old(disk)
                      else if |src| == old(buffer.left) || |src| >= buffer.storage.Length then Content()
                      else old(Content())
    {
      n := |src|;
      var fits := buffer.Append(src);
      if fits {
        if buffer.left == 0 {
          FlushValid();
        }
      } else {
        FlushValid();
        if |src| >= buffer.left {
          disk := disk + src;
        } else {
          var ok := buffer.Append(src);
          assert ok;
        }
      }
    }

    // Serializes into the writable span and commits, or writes nothing when the span is too small.
    method WriteEntry(e: Entry) returns (ok: bool)
      requires Valid() && EntrySize(e) < 0x1_0000_0000
      modifies this, buffer`left, buffer.storage
      ensures Valid() && ok == (EntrySize(e) <= old(buffer.left))
      ensures Content() == if ok then old(Content()) + SerEntry(e) else old(Content())
      ensures disk == if EntrySize(e) == old(buffer.left) then Content() else old(disk)
      ensures buffer.left == if EntrySize(e) == old(buffer.left) then buffer.storage.Length
                             else if ok then old(buffer.left) - EntrySize(e) else old(buffer.left)
    {
      hide SerEntry;
      ghost var span := buffer.Span();
      ok := SerializeTo(e, buffer.storage, buffer.Size());
      assert buffer.Span() == span;
      if ok {
        assert buffer.storage[buffer.Size()..buffer.Size() + EntrySize(e)] == SerEntry(e);
        Commit(EntrySize(e));
      }
    }

    // Commits what was written to the buffer's writable span.
    method Commit(n: nat)
      requires Valid() && n <= buffer.left
      modifies this, buffer`left
      ensures Valid() && Content() == old(Content()) + old(buffer.storage[buffer.Size()..buffer.Size() + n])
      ensures disk == if n == old(buffer.left) then Content() else old(disk)
      ensures buffer.left == if n == old(buffer.left) then buffer.storage.Length else old(buffer.left) - n
    {
      buffer.Commit(n);
      if buffer.left == 0 {
        FlushValid();
      }
    }
  }

  /* ------------------------------------------------------------------- the log */

  // The entries that get logged: those before the first one larger than the whole buffer.
  function Loggable(batch: seq<Entry>, capacity: nat): (r: seq<Entry>)
    ensures r <= batch && (forall e | e in r :: EntrySize(e) <= capacity)
    ensures |r| < |batch| ==> EntrySize(batch[|r|]) > capacity
  {
    if batch == [] || EntrySize(batch[0]) > capacity then [] else [batch[0]] + Loggable(batch[1..], capacity)
  }

  // How many entries are logged, how many of them are on disk, and how many bytes the buffer has left.
  datatype LogState = LogState(logged: nat, flushed: nat, left: nat)

  // An entry that does not fit what is left has everything before it flushed; one that fills the buffer is
  // flushed with it; any other one stays in the buffer.
  function LogStep(st: LogState, size: nat, capacity: nat): LogState {
    var ready := if st.left < size then st.(flushed := st.logged, left := capacity) else st;
    if size > ready.left then ready
    else if size == ready.left then LogState(st.logged + 1, st.logged + 1, capacity)
    else ready.(logged := st.logged + 1, left := ready.left - size)
  }

  // Entry by entry, up to the first one larger than the buffer.
  function LogSteps(st: LogState, batch: seq<Entry>, capacity: nat): LogState
    decreases |batch|
  {
    if batch == [] then st
    else
      var next := LogStep(st, EntrySize(batch[0]), capacity);
      if EntrySize(batch[0]) > capacity then next else LogSteps(next, batch[1..], capacity)
  }

  lemma SerOne(e: Entry)
    ensures SerEntries([e]) == SerEntry(e)
  {
    hide SerEntry;
    assert [e][1..] == [];
  }

  lemma {:induction false} LoggableAll(batch: seq<Entry>, k: nat, capacity: nat)
    requires k <= |batch| && forall i | 0 <= i < k :: EntrySize(batch[i]) <= capacity
    ensures k == |batch| || EntrySize(batch[k]) > capacity ==> Loggable(batch, capacity) == batch[..k]
  {
    hide EntrySize;
    if k > 0 {
      LoggableAll(batch[1..], k - 1, capacity);
      assert batch[..k] == [batch[0]] + batch[1..][..k - 1];
    }
  }

  lemma OneMore(es: seq<Entry>, e: Entry)
    ensures SerEntries(es + [e]) == SerEntries(es) + SerEntry(e)
  {
    hide SerEntry, SerEntries;
    SerEntriesAppend(es, [e]);
    SerOne(e);
  }

  lemma SamePrefix(es: seq<Entry>, e: Entry, n: nat)
    requires n <= |es|
    ensures (es + [e])[..n] == es[..n] && (es + [e])[..|es + [e]|] == es + [e]
  {}

  class WriteAheadLogger {
    var file: IouringWritable
    ghost var logged: seq<Entry>
    ghost var flushed: nat

    ghost function Repr(): set<object>
      reads this, file
    {
      {this, file, file.buffer, file.buffer.storage}
    }

    ghost function Now(): LogState
      reads this, file, file.buffer
    {
      LogState(|logged|, flushed, file.buffer.left)
    }

    // The disk and the buffer together hold everything logged, the disk a prefix of whole entries.
    ghost predicate Valid()
      reads this, file, file.buffer, file.buffer.storage
    {
      && file.Valid() && file.Content() == SerEntries(logged)
      && flushed <= |logged| && file.disk == SerEntries(logged[..flushed])
    }

    constructor (capacity: nat)
      ensures Valid() && fresh(Repr()) && logged == [] && flushed == 0 && file.buffer.storage.Length == capacity
    {
      file := new IouringWritable(capacity);
      logged, flushed := [], 0;
    }

    method Flush()
      requires Valid()
      modifies Repr()
      ensures Valid() && file == old(file) && logged == old(logged) && flushed == |logged|
      ensures file.buffer.left == file.buffer.storage.Length
    {
      file.FlushValid();
      flushed := |logged|;
      assert logged[..flushed] == logged;
    }

    method LogOne(item: Entry) returns (ok: bool)
      requires Valid() && EntrySize(item) < 0x1_0000_0000
      modifies Repr()
      ensures Valid() && file == old(file) && ok == (EntrySize(item) <= file.buffer.storage.Length)
      ensures logged == if ok then old(logged) + [item] else old(logged)
      ensures Now() == LogStep(old(Now()), EntrySize(item), file.buffer.storage.Length)
    {
      hide SerEntry, EntrySize, SerEntries;
      if file.buffer.left < EntrySize(item) {
        Flush();
      }
      ghost var disk, full := file.disk, EntrySize(item) == file.buffer.left;
      ok := file.WriteEntry(item);
      if ok {
        OneMore(logged, item);
        SamePrefix(logged, item, flushed);
        logged := logged + [item];
        if file.disk != disk || full {
          flushed := |logged|;
          assert logged[..flushed] == logged;
        }
      }
    }

    // Logs entry by entry; an entry larger than the buffer ends the call with an exception (false).
    method Insert(batch: seq<Entry>, flush: bool) returns (ok: bool)
      requires Valid() && forall e | e in batch :: EntrySize(e) < 0x1_0000_0000
      modifies Repr()
      ensures Valid() && file == old(file)
      ensures ok == (forall e | e in batch :: EntrySize(e) <= file.buffer.storage.Length)
      ensures logged == old(logged) + Loggable(batch, file.buffer.storage.Length)
      ensures var st := LogSteps(old(Now()), batch, file.buffer.storage.Length);
              Now() == if ok && flush then LogState(st.logged, st.logged, file.buffer.storage.Length) else st
    {
      hide EntrySize, WriteAheadLogger.Valid, Loggable, LogStep;
      var capacity := file.buffer.storage.Length;
      for k := 0 to |batch|
        invariant Valid() && file == old(file) && capacity == file.buffer.storage.Length
        invariant LogSteps(old(Now()), batch, capacity) == LogSteps(Now(), batch[k..], capacity)
        invariant logged == old(logged) + batch[..k] && forall i | 0 <= i < k :: EntrySize(batch[i]) <= capacity
      {
        assert batch[k..][1..] == batch[k + 1..];
        ok := LogOne(batch[k]);
        LoggableAll(batch, k, capacity);
        if !ok {
          return;
        }
        assert batch[..k + 1] == batch[..k] + [batch[k]];
      }
      LoggableAll(batch, |batch|, capacity);
      ok := true;
      if flush {
        Flush();
      }
    }

    // truncate_file: a new empty file takes the place of the old one.
    method TruncateFile()
      requires Valid()
      modifies this
      ensures Valid() && fresh(file) && fresh(file.buffer) && fresh(file.buffer.storage) && logged == []
      ensures file.buffer.storage.Length == old(file.buffer.storage.Length)
    {
      file := new IouringWritable(file.buffer.storage.Length);
      logged, flushed := [], 0;
    }
  }

  /* ------------------------------------------------------------------ recovery */

  function MaxSeq(es: seq<Entry>): nat {
    if es == [] then 0
    else
      var m := MaxSeq(es[..|es| - 1]);
      if es[|es| - 1].key.seqNo > m then es[|es| - 1].key.seqNo else m
  }

  lemma {:induction false} MaxSeqIsGreatest(es: seq<Entry>)
    ensures forall e | e in es :: e.key.seqNo <= MaxSeq(es)
    ensures MaxSeq(es) == 0 || exists e :: e in es && e.key.seqNo == MaxSeq(es)
  {
    if es != [] {
      var front, last := es[..|es| - 1], es[|es| - 1];
      MaxSeqIsGreatest(front);
      assert es == front + [last];
      assert last in es && forall e | e in front :: e in es;
    }
  }

  // recover: the entries of the log file and their greatest sequence number; None where parsing fails.
  method Recover(file: Data) returns (batch: Option<seq<Entry>>, maxSeq: nat)
    ensures batch == EntriesFrom(file, 0)
    ensures maxSeq == if batch.Some? then MaxSeq(batch.value) else 0
  {
    batch, maxSeq := Some([]), 0;
    if |file| != 0 {
      batch := KvEntriesFromBuffer(file);
      if batch.Some? {
        for k := 0 to |batch.value|
          invariant maxSeq == MaxSeq(batch.value[..k])
        {
          assert batch.value[..k + 1][..k] == batch.value[..k];
          if batch.value[k].key.seqNo > maxSeq {
            maxSeq := batch.value[k].key.seqNo;
          }
        }
        assert batch.value[..|batch.value|] == batch.value;
      }
    }
  }

  // Whatever the buffer still held is lost, nothing else: at any time the disk alone reads back as the
  // entries flushed so far, in order, with or without a mark of four zero bytes behind them.
  lemma DiskRecovers(logged: seq<Entry>, flushed: nat, disk: Data, tail: Data)
    requires (forall e | e in logged :: ValidEntry(e)) && flushed <= |logged|
    requires disk == SerEntries(logged[..flushed]) && (tail == [] || tail == [0, 0, 0, 0])
    ensures EntriesFrom(disk + tail, 0) == Some(logged[..flushed])
  {
    hide ValidEntry;
    var file := disk + tail;
    assert file[0..] == SerEntries(logged[..flushed]) + tail;
    forall e | e in logged[..flushed] ensures ValidEntry(e) {
      assert e in logged;
    }
    EntriesRoundTrip(file, 0, logged[..flushed], tail);
  }
}
