/** The read path, exactly: when it finds the newest stored version of a key, and how the stored
    versions relate to a plain last-write-wins map. */
module StoreRefinement {
  import opened Bytes
  import opened Keys
  import opened TableImages
  import opened TableLookup
  import opened TableTheorems
  import opened Merging
  import opened TableWriting
  import opened Store
  import opened StoreInvariant
  import G = Guarding

  // The entry is a stored version of its key.
  ghost predicate Holds(s: State, e: Entry)
    requires s.versions != []
  {
    e in s.mem || exists f | f in Current(s) && f in s.disk :: e in Contents(s.disk[f])
  }

  // It is the newest stored version of its key.
  ghost predicate IsTop(s: State, e: Entry)
    requires s.versions != []
  {
    Holds(s, e) && forall x | Holds(s, x) && x.key.user == e.key.user :: x.key.seqNo <= e.key.seqNo
  }

  // A version of the entry's key at least as new is stored.
  ghost predicate Superseded(s: State, e: Entry)
    requires s.versions != []
  {
    exists k :: Holds(s, k) && k.key.user == e.key.user && e.key.seqNo <= k.key.seqNo
  }

  /* --------------------------------------------------------------- read path */

  // The memtable's ordered search returns the newest visible version.
  lemma {:induction false} MemGetIsNewest(mem: seq<Entry>, user: Data, q: SeqNo)
    requires KeySorted(mem)
    ensures MemGet(mem, user, q) == NewestIn(mem, user, q)
    ensures IsNewest(mem, user, q, MemGet(mem, user, q))
  {
    hide KeyLess, UserLess, IsNewest;
    NewestInIsNewest(mem, user, q);
    if mem != [] {
      var front, last := mem[..|mem| - 1], mem[|mem| - 1];
      var key := SeqKey(q, user);
      SortedFront(mem);
      MemGetIsNewest(front, user, q);
      KeyLessByUser(key, last.key);
      UserOrderStrictTotal(user, last.key.user, user);
      if !KeyLess(key, last.key) && last.key.user != user {
        OlderUsers(front, last, user);
        NewestInNone(front, user, q);
      }
    }
  }

  lemma OlderUsers(front: seq<Entry>, last: Entry, user: Data)
    requires (forall x | x in front :: KeyLess(x.key, last.key)) && UserLess(last.key.user, user)
    ensures !Occurs(front, user)
  {
    hide KeyLess, UserLess;
    forall i | 0 <= i < |front| ensures front[i].key.user != user {
      KeyLessByUser(front[i].key, last.key);
      UserOrderStrictTotal(user, last.key.user, user);
    }
  }

  // The newest version of the key among the tables of level l, or none there.
  ghost predicate LevelTop(disk: map<FileId, FileRec>, files: seq<FileId>, l: nat, user: Data, r: Option<Entry>)
    requires Readable(disk, files)
  {
    match r
    case None => forall f | f in files && disk[f].level == l :: !Occurs(Contents(disk[f]), user)
    case Some(e) =>
      && e.key.user == user && (exists f | f in files && disk[f].level == l :: e in Contents(disk[f]))
      && forall f, x | f in files && disk[f].level == l && x in Contents(disk[f]) && x.key.user == user ::
           x.key.seqNo <= e.key.seqNo
  }

  ghost predicate AllVisible(disk: map<FileId, FileRec>, files: seq<FileId>, q: SeqNo)
    requires Readable(disk, files)
  {
    forall f | f in files :: KeySorted(Contents(disk[f])) && Below(Contents(disk[f]), q as int + 1)
  }

  lemma TableGetTop(r: FileRec, user: Data, q: SeqNo)
    requires NonEmptyParts(r.parts) && KeySorted(Contents(r)) && Below(Contents(r), q as int + 1)
    ensures match TableGet(r.parts, user, q)
            case None => !Occurs(Contents(r), user)
            case Some(e) =>
              && e.key.user == user && e in Contents(r)
              && forall x | x in Contents(r) && x.key.user == user :: x.key.seqNo <= e.key.seqNo
  {
    hide KeySorted, TableGet;
    var es := Contents(r);
    forall i | 0 <= i < |es| ensures es[i].key.seqNo <= q { assert es[i] in es; }
    LookupNewest(r.parts, user, q);
  }

  lemma {:induction false} LevelAnswerTop(disk: map<FileId, FileRec>, files: seq<FileId>, l: nat, user: Data, q: SeqNo)
    requires Readable(disk, files) && AllVisible(disk, files, q)
    ensures LevelTop(disk, files, l, user, LevelAnswer(disk, files, l, user, q))
  {
    hide KeySorted, TableGet, Occurs, Contents, KeyLess, Below;
    if files != [] {
      var f, rest := files[0], files[1..];
      LevelAnswerTop(disk, rest, l, user, q);
      forall g ensures g in files <==> g == f || g in rest {}
      if disk[f].level == l {
        TableGetTop(disk[f], user, q);
        GreaterTop(disk, files, l, user, TableGet(disk[f].parts, user, q), LevelAnswer(disk, rest, l, user, q));
      } else {
        SkipLevel(disk, files, l, user, LevelAnswer(disk, rest, l, user, q));
      }
    }
  }

  lemma SkipLevel(disk: map<FileId, FileRec>, files: seq<FileId>, l: nat, user: Data, b: Option<Entry>)
    requires Readable(disk, files) && files != [] && disk[files[0]].level != l
    requires LevelTop(disk, files[1..], l, user, b)
    ensures LevelTop(disk, files, l, user, b)
  {
    hide Occurs, Contents;
    forall g ensures g in files <==> g == files[0] || g in files[1..] {}
  }

  lemma GreaterTop(disk: map<FileId, FileRec>, files: seq<FileId>, l: nat, user: Data, a: Option<Entry>,
                   b: Option<Entry>)
    requires Readable(disk, files) && files != [] && disk[files[0]].level == l
    requires match a
             case None => !Occurs(Contents(disk[files[0]]), user)
             case Some(e) =>
               && e.key.user == user && e in Contents(disk[files[0]])
               && forall x | x in Contents(disk[files[0]]) && x.key.user == user :: x.key.seqNo <= e.key.seqNo
    requires LevelTop(disk, files[1..], l, user, b)
    ensures LevelTop(disk, files, l, user, LaterOf(a, b))
  {
    hide Contents, KeyLess, UserLess;
    forall g ensures g in files <==> g == files[0] || g in files[1..] {}
    if a.Some? && b.Some? {
      KeyLessByUser(a.value.key, b.value.key);
      UserOrderStrictTotal(user, user, user);
      NotOccurring(disk, files, l, user);
    } else {
      NotOccurring(disk, files, l, user);
    }
  }

  lemma NotOccurring(disk: map<FileId, FileRec>, files: seq<FileId>, l: nat, user: Data)
    requires Readable(disk, files)
    ensures forall f, x | f in files && !Occurs(Contents(disk[f]), user) && x in Contents(disk[f]) :: x.key.user != user
  {}

  // The levels from l on: the answer is the newest version on the first level that holds the key.
  ghost predicate FirstTop(disk: map<FileId, FileRec>, files: seq<FileId>, l: nat, user: Data, r: Option<Entry>)
    requires Readable(disk, files)
  {
    match r
    case None => NoneFrom(disk, files, l, user)
    case Some(e) => exists m :: l <= m && LevelTop(disk, files, m, user, r) && NoneBetween(disk, files, l, m, user)
  }

  ghost predicate NoneFrom(disk: map<FileId, FileRec>, files: seq<FileId>, l: nat, user: Data)
    requires Readable(disk, files)
  {
    forall f | f in files && l <= disk[f].level :: !Occurs(Contents(disk[f]), user)
  }

  ghost predicate NoneBetween(disk: map<FileId, FileRec>, files: seq<FileId>, l: nat, m: nat, user: Data)
    requires Readable(disk, files)
  {
    forall f | f in files && l <= disk[f].level < m :: !Occurs(Contents(disk[f]), user)
  }

  lemma {:induction false} SstGetFirst(disk: map<FileId, FileRec>, files: seq<FileId>, user: Data, q: SeqNo, l: nat,
                                       levels: nat)
    requires Readable(disk, files) && AllVisible(disk, files, q)
    requires forall f | f in files :: disk[f].level < levels
    ensures FirstTop(disk, files, l, user, SstGet(disk, files, user, q, l, levels))
    decreases levels - l
  {
    hide AllVisible, Occurs, Contents, LevelAnswer, LevelTop;
    if l < levels {
      LevelAnswerTop(disk, files, l, user, q);
      var r := LevelAnswer(disk, files, l, user, q);
      if r.Some? {
        assert NoneBetween(disk, files, l, l, user);
      } else {
        LevelNone(disk, files, l, user);
        SstGetFirst(disk, files, user, q, l + 1, levels);
        var deeper := SstGet(disk, files, user, q, l + 1, levels);
        if deeper.Some? {
          var m :| l + 1 <= m && LevelTop(disk, files, m, user, deeper) && NoneBetween(disk, files, l + 1, m, user);
          assert NoneBetween(disk, files, l, m, user);
        }
      }
    }
  }

  lemma LevelNone(disk: map<FileId, FileRec>, files: seq<FileId>, l: nat, user: Data)
    requires Readable(disk, files) && LevelTop(disk, files, l, user, None)
    ensures forall f | f in files && disk[f].level == l :: !Occurs(Contents(disk[f]), user)
  {}

  lemma NewerPair(a: seq<Entry>, b: seq<Entry>, x: Entry, y: Entry)
    requires Newer(a, b) && x in a && y in b && x.key.user == y.key.user
    ensures y.key.seqNo < x.key.seqNo
  {}

  lemma FilesReadable(cfg: TableConfig, s: State, files: seq<FileId>)
    requires DiskOk(cfg, s) && forall f | f in files :: f in s.disk
    ensures Readable(s.disk, files)
    ensures forall f | f in files :: KeySorted(Contents(s.disk[f])) && Below(Contents(s.disk[f]), s.nextSeq)
  {
    hide WellFormed, KeySorted, Below, Contents, Flat;
    forall f | f in files
      ensures NonEmptyParts(s.disk[f].parts) && KeySorted(Contents(s.disk[f])) && Below(Contents(s.disk[f]), s.nextSeq)
    {
      assert GoodFile(cfg, s.disk[f], s.nextSeq, s.clock);
      FileSorted(cfg, s.disk[f]);
    }
  }

  // The newest version of the key lies in a file, and a file of an upper level holds the key too.
  ghost predicate Stale(s: State, user: Data)
    requires s.versions != []
  {
    exists f, g, y :: Buried(s, user, f, g, y)
  }

  ghost predicate Buried(s: State, user: Data, f: FileId, g: FileId, y: Entry)
    requires s.versions != []
  {
    && f in Current(s) && g in Current(s) && f in s.disk && g in s.disk && s.disk[f].level < s.disk[g].level
    && Occurs(Contents(s.disk[f]), user) && y in Contents(s.disk[g]) && y.key.user == user && IsTop(s, y)
  }

  lemma CurrentGood(cfg: TableConfig, s: State)
    requires Sound(cfg, s)
    ensures s.versions != [] && GoodVersion(s.disk, Current(s)) && Readable(s.disk, Current(s))
    ensures 1 <= s.nextSeq <= 0x1_0000_0000
    ensures AllVisible(s.disk, Current(s), s.nextSeq - 1) && MemAbove(s, Current(s)) && KeySorted(s.mem)
    ensures Below(s.mem, s.nextSeq)
  {
    hide WellFormed, KeySorted, SnapsOk, MemOverAll, Below, Contents, Newer, Apart, Above, G.NoDuplicates;
    CurrentMem(cfg, s);
    assert GoodVersion(s.disk, s.versions[|s.versions| - 1].files);
    FilesReadable(cfg, s, Current(s));
  }

  // Reading, exactly: nothing is found only if no version is stored, and what is found is a stored version,
  // the newest one if and only if the key is not stale.
  lemma ReadExact(cfg: TableConfig, s: State, user: Data)
    requires Sound(cfg, s)
    ensures s.versions != [] && Readable(s.disk, Current(s)) && 1 <= s.nextSeq <= 0x1_0000_0000
    ensures match Lookup(s, Current(s), user, s.nextSeq - 1)
            case None => !Stale(s, user) && forall e | Holds(s, e) :: e.key.user != user
            case Some(e) => e.key.user == user && Holds(s, e) && (IsTop(s, e) <==> !Stale(s, user))
  {
    hide *;
    CurrentGood(cfg, s);
    var q := s.nextSeq - 1;
    MemGetIsNewest(s.mem, user, q);
    LookupIs(s, user);
    if MemGet(s.mem, user, q).Some? {
      MemVisible(s, user, q);
      FoundInMem(s, user, MemGet(s.mem, user, q).value);
    } else {
      MemVisible(s, user, q);
      LevelsAbove(s.disk, Current(s));
      SstGetFirst(s.disk, Current(s), user, q, 0, Levels(s.disk, Current(s)));
      FoundOnDisk(cfg, s, user, SstGet(s.disk, Current(s), user, q, 0, Levels(s.disk, Current(s))));
    }
  }

  lemma LookupIs(s: State, user: Data)
    requires s.versions != [] && Readable(s.disk, Current(s)) && 1 <= s.nextSeq <= 0x1_0000_0000
    ensures var q := s.nextSeq - 1;
            Lookup(s, Current(s), user, q) == (match MemGet(s.mem, user, q)
                                               case Some(e) => Some(e)
                                               case None =>
                                                 SstGet(s.disk, Current(s), user, q, 0, Levels(s.disk, Current(s))))
  {
    hide MemGet, SstGet, Levels;
  }

  lemma LevelsAbove(disk: map<FileId, FileRec>, files: seq<FileId>)
    requires Readable(disk, files)
    ensures forall f | f in files :: disk[f].level < Levels(disk, files)
  {}

  // What the memtable holds of a key is newer than everything in the files.
  lemma FoundInMem(s: State, user: Data, e: Entry)
    requires s.versions != [] && MemAbove(s, Current(s)) && e in s.mem && e.key.user == user
    requires forall x | x in s.mem && x.key.user == user :: x.key.seqNo <= e.key.seqNo
    ensures Holds(s, e) && IsTop(s, e) && !Stale(s, user)
  {
    hide Contents, Newer, Occurs;
    forall x | Holds(s, x) && x.key.user == user ensures x.key.seqNo <= e.key.seqNo {
      if x !in s.mem {
        var f :| f in Current(s) && f in s.disk && x in Contents(s.disk[f]);
        NewerPair(s.mem, Contents(s.disk[f]), e, x);
      }
    }
    forall f, g, y ensures !Buried(s, user, f, g, y) {
      if Buried(s, user, f, g, y) {
        NewerPair(s.mem, Contents(s.disk[g]), e, y);
      }
    }
  }

  // What the files answer when the memtable does not hold the key.
  lemma FoundOnDisk(cfg: TableConfig, s: State, user: Data, r: Option<Entry>)
    requires Sound(cfg, s) && s.versions != [] && Readable(s.disk, Current(s))
    requires FirstTop(s.disk, Current(s), 0, user, r)
    requires forall e | e in s.mem :: e.key.user != user
    ensures match r
            case None => !Stale(s, user) && forall e | Holds(s, e) :: e.key.user != user
            case Some(e) => e.key.user == user && Holds(s, e) && (IsTop(s, e) <==> !Stale(s, user))
  {
    hide Contents, Occurs, Sound, IsTop, LevelTop;
    if r.None? {
      NotOccurringAny(s.disk, Current(s), user);
    } else {
      var m :| 0 <= m && LevelTop(s.disk, Current(s), m, user, r) && NoneBetween(s.disk, Current(s), 0, m, user);
      var f := LevelHolder(s.disk, Current(s), m, user, r.value);
      if IsTop(s, r.value) {
        forall f', g, y ensures !Buried(s, user, f', g, y) {
          if Buried(s, user, f', g, y) {
            TopUnique(cfg, s, r.value, y);
            OneFile(cfg, s, f, g, y);
          }
        }
      } else {
        TopIsDeeper(cfg, s, user, m, f, r.value);
      }
    }
  }

  lemma LevelHolder(disk: map<FileId, FileRec>, files: seq<FileId>, m: nat, user: Data, e: Entry) returns (f: FileId)
    requires Readable(disk, files) && LevelTop(disk, files, m, user, Some(e))
    ensures f in files && disk[f].level == m && e in Contents(disk[f]) && e.key.user == user
    ensures Occurs(Contents(disk[f]), user)
  {
    hide Contents;
    f :| f in files && disk[f].level == m && e in Contents(disk[f]);
    OccursIn(Contents(disk[f]), e);
  }

  // No two files share an entry.
  lemma OneFile(cfg: TableConfig, s: State, f: FileId, g: FileId, e: Entry)
    requires Sound(cfg, s) && f in Current(s) && g in Current(s) && f in s.disk && g in s.disk
    requires e in Contents(s.disk[f]) && e in Contents(s.disk[g])
    ensures f == g
  {
    hide Contents, Sound, Above, G.NoDuplicates;
    CurrentGood(cfg, s);
  }

  // A level's newest version that is not the newest of all is buried by a file of a deeper level.
  lemma TopIsDeeper(cfg: TableConfig, s: State, user: Data, m: nat, f: FileId, e: Entry)
    requires Sound(cfg, s) && s.versions != [] && Readable(s.disk, Current(s))
    requires forall x | x in s.mem :: x.key.user != user
    requires LevelTop(s.disk, Current(s), m, user, Some(e)) && NoneBetween(s.disk, Current(s), 0, m, user)
    requires f in Current(s) && s.disk[f].level == m && e in Contents(s.disk[f]) && !IsTop(s, e)
    ensures Stale(s, user)
  {
    hide Contents, Sound;
    assert Holds(s, e);
    var y := TopOf(cfg, s, e);
    var g :| g in Current(s) && g in s.disk && y in Contents(s.disk[g]);
    OccursIn(Contents(s.disk[g]), y);
    OccursIn(Contents(s.disk[f]), e);
    if s.disk[g].level == m {
      assert false;  // the level's newest version would be the newest of all
    }
    assert Buried(s, user, f, g, y);
  }

  lemma SameTop(cfg: TableConfig, s: State, e: Entry, y: Entry)
    requires Sound(cfg, s) && s.versions != [] && IsTop(s, y) && Holds(s, e) && e.key.user == y.key.user
    requires y.key.seqNo <= e.key.seqNo
    ensures e == y
  {
    hide Sound, Holds;
    SameKeySameEntry(cfg, s, e, y);
  }

  // Every key that is stored has a newest version.
  lemma TopOf(cfg: TableConfig, s: State, e: Entry) returns (y: Entry)
    requires Sound(cfg, s) && s.versions != [] && Holds(s, e)
    ensures IsTop(s, y) && y.key.user == e.key.user
    decreases s.nextSeq - e.key.seqNo
  {
    hide Sound, Holds;
    if x :| Holds(s, x) && x.key.user == e.key.user && e.key.seqNo < x.key.seqNo {
      HeldBelow(cfg, s, x);
      y := TopOf(cfg, s, x);
    } else {
      y := e;
    }
  }

  // Under the level invariant no key is stale.
  lemma LayeredNotStale(cfg: TableConfig, s: State, user: Data)
    requires Inv(cfg, s)
    ensures s.versions != [] && !Stale(s, user)
  {
    hide Contents, Sound, Newer;
    CurrentGood(cfg, s);
    forall f, g, y ensures !Buried(s, user, f, g, y) {
      if Buried(s, user, f, g, y) {
        var x := Occurrence(Contents(s.disk[f]), user);
        assert Above(s.disk[f], s.disk[g]);
        NewerPair(Contents(s.disk[f]), Contents(s.disk[g]), x, y);
      }
    }
  }

  lemma NotOccurringAny(disk: map<FileId, FileRec>, files: seq<FileId>, user: Data)
    requires Readable(disk, files)
    ensures forall f, x | f in files && !Occurs(Contents(disk[f]), user) && x in Contents(disk[f]) :: x.key.user != user
  {}

  lemma MemVisible(s: State, user: Data, q: SeqNo)
    requires KeySorted(s.mem) && Below(s.mem, q as int + 1) && IsNewest(s.mem, user, q, MemGet(s.mem, user, q))
    ensures match MemGet(s.mem, user, q)
            case None => forall e | e in s.mem :: e.key.user != user
            case Some(e) =>
              && e in s.mem && e.key.user == user
              && forall x | x in s.mem && x.key.user == user :: x.key.seqNo <= e.key.seqNo
  {
    hide KeySorted, MemGet;
    if MemGet(s.mem, user, q).None? {
      forall e | e in s.mem ensures e.key.user != user {
        var i :| 0 <= i < |s.mem| && s.mem[i] == e;
      }
    }
  }

  // Two newest versions of one key are the same entry.
  lemma TopUnique(cfg: TableConfig, s: State, a: Entry, b: Entry)
    requires Sound(cfg, s) && IsTop(s, a) && IsTop(s, b) && a.key.user == b.key.user
    ensures a == b
  {
    hide Contents, WellFormed, SnapsOk;
    SameKeySameEntry(cfg, s, a, b);
  }

  lemma SameKeySameEntry(cfg: TableConfig, s: State, a: Entry, b: Entry)
    requires Sound(cfg, s) && s.versions != [] && Holds(s, a) && Holds(s, b) && a.key == b.key
    ensures a == b
  {
    hide Contents, Sound, KeySorted, Newer, Below, Above, Apart, G.NoDuplicates;
    CurrentGood(cfg, s);
    if a in s.mem && b in s.mem {
      SortedUnique(s.mem, a, b);
    } else if a in s.mem {
      var g :| g in Current(s) && g in s.disk && b in Contents(s.disk[g]);
      NewerPair(s.mem, Contents(s.disk[g]), a, b);
    } else if b in s.mem {
      var f :| f in Current(s) && f in s.disk && a in Contents(s.disk[f]);
      NewerPair(s.mem, Contents(s.disk[f]), b, a);
    } else {
      var f :| f in Current(s) && f in s.disk && a in Contents(s.disk[f]);
      var g :| g in Current(s) && g in s.disk && b in Contents(s.disk[g]);
      if f == g {
        SortedUnique(Contents(s.disk[f]), a, b);
      } else {
        ApartPair(Contents(s.disk[f]), Contents(s.disk[g]), a, b);
      }
    }
  }

  lemma ApartPair(a: seq<Entry>, b: seq<Entry>, x: Entry, y: Entry)
    requires Apart(a, b) && x in a && y in b
    ensures x.key != y.key
  {}

  lemma SortedUnique(es: seq<Entry>, a: Entry, b: Entry)
    requires KeySorted(es) && a in es && b in es && a.key == b.key
    ensures a == b
  {
    hide KeyLess;
    var i :| 0 <= i < |es| && es[i] == a;
    var j :| 0 <= j < |es| && es[j] == b;
    KeyOrderStrictTotal(a.key, b.key, a.key);
  }

  /* ------------------------------------------------------------ the plain map */

  function Apply(m: map<Data, Data>, w: Write): map<Data, Data> {
    match w.value
    case Put(d) => m[w.user := d]
    case Tombstone => m - {w.user}
  }

  function ApplyAll(m: map<Data, Data>, batch: seq<Write>): map<Data, Data>
    decreases |batch|
  {
    if batch == [] then m else ApplyAll(Apply(m, batch[0]), batch[1..])
  }

  ghost predicate AgreesAt(s: State, m: map<Data, Data>, user: Data)
    requires s.versions != []
  {
    if user in m then exists e :: IsTop(s, e) && e.key.user == user && e.value == Put(m[user])
    else forall e :: IsTop(s, e) && e.key.user == user ==> e.value == Tombstone
  }

  ghost predicate Agrees(s: State, m: map<Data, Data>)
    requires s.versions != []
  {
    forall user :: AgreesAt(s, m, user)
  }

  // What a client reads of a key that is not stale when the store agrees with the map.
  lemma GetAgrees(cfg: TableConfig, s: State, m: map<Data, Data>, user: Data)
    requires Sound(cfg, s) && s.versions != [] && Agrees(s, m) && !Stale(s, user)
    ensures Readable(s.disk, Current(s)) && 1 <= s.nextSeq <= 0x1_0000_0000
    ensures Get(s, user) == if user in m then Some(m[user]) else None
  {
    hide IsTop, Holds, Sound, Lookup, Readable, Stale;
    assert AgreesAt(s, m, user);
    ReadExact(cfg, s, user);
    var r := Lookup(s, Current(s), user, s.nextSeq - 1);
    if user in m {
      var e :| IsTop(s, e) && e.key.user == user && e.value == Put(m[user]);
      TopHolds(s, e);
      TopUnique(cfg, s, e, r.value);
    }
  }

  lemma TopHolds(s: State, e: Entry)
    requires s.versions != [] && IsTop(s, e)
    ensures Holds(s, e)
  {}

  /* ------------------------------------------------------------------- writes */

  // After a write, its entry is the newest of its key and every other key is unchanged.
  lemma PutOneTops(cfg: TableConfig, s: State, w: Write, e: Entry)
    requires Sound(cfg, s) && s.nextSeq < 0x1_0000_0000
    ensures var s' := PutOne(s, w);
            var added := Entry(SeqKey(s.nextSeq, w.user), w.value);
            IsTop(s', e) <==> if e.key.user == w.user then e == added else IsTop(s, e)
  {
    hide KeySorted, Contents, WellFormed, SnapsOk, Newer;
    var s' := PutOne(s, w);
    var added := Entry(SeqKey(s.nextSeq, w.user), w.value);
    forall x ensures Holds(s', x) <==> Holds(s, x) || x == added {
      InsertHolds(s.mem, added);
    }
    forall x | Holds(s, x) ensures x.key.seqNo < s.nextSeq {
      HeldBelow(cfg, s, x);
    }
    assert Holds(s', added);
  }

  lemma HeldBelow(cfg: TableConfig, s: State, x: Entry)
    requires Sound(cfg, s) && Holds(s, x)
    ensures x.key.seqNo < s.nextSeq
  {
    hide KeySorted, WellFormed, SnapsOk, Newer, Contents;
    if x !in s.mem {
      var f :| f in Current(s) && f in s.disk && x in Contents(s.disk[f]);
      FileBelow(cfg, s, f, x);
    }
  }

  lemma PutOneAgrees(cfg: TableConfig, s: State, w: Write, m: map<Data, Data>)
    requires Sound(cfg, s) && Agrees(s, m) && s.nextSeq < 0x1_0000_0000
    ensures Agrees(PutOne(s, w), Apply(m, w))
  {
    hide Inv, IsTop;
    VersionsThere(cfg, s);
    var s', m' := PutOne(s, w), Apply(m, w);
    var added := Entry(SeqKey(s.nextSeq, w.user), w.value);
    forall user ensures AgreesAt(s', m', user) {
      assert AgreesAt(s, m, user);
      PutOneTops(cfg, s, w, added);
      forall e ensures IsTop(s', e) <==> if e.key.user == w.user then e == added else IsTop(s, e) {
        PutOneTops(cfg, s, w, e);
      }
    }
  }

  lemma {:induction false} PutAllAgrees(cfg: TableConfig, s: State, batch: seq<Write>, m: map<Data, Data>)
    requires Sound(cfg, s) && Agrees(s, m) && s.nextSeq + |batch| <= 0x1_0000_0000
    requires forall w | w in batch :: GoodWrite(w)
    ensures Sound(cfg, PutAll(s, batch)) && (Inv(cfg, s) ==> Inv(cfg, PutAll(s, batch)))
    ensures PutAll(s, batch).versions != [] && Agrees(PutAll(s, batch), ApplyAll(m, batch))
    decreases |batch|
  {
    hide Inv, Agrees, GoodWrite;
    if batch != [] {
      assert batch[0] in batch;
      PutOneKeeps(cfg, s, batch[0]);
      PutOneAgrees(cfg, s, batch[0], m);
      PutAllAgrees(cfg, PutOne(s, batch[0]), batch[1..], Apply(m, batch[0]));
    } else {
      VersionsThere(cfg, s);
    }
  }

  lemma VersionsThere(cfg: TableConfig, s: State)
    requires Sound(cfg, s)
    ensures s.versions != [] && Readable(s.disk, Current(s)) && 1 <= s.nextSeq <= 0x1_0000_0000
  {
    hide WellFormed, KeySorted, SnapsOk;
    assert GoodVersion(s.disk, Current(s));
    FilesReadable(cfg, s, Current(s));
  }

  /* --------------------------------------------- steps that move entries around */

  lemma SameTopsAgree(s: State, s': State, m: map<Data, Data>)
    requires s.versions != [] && s'.versions != [] && Agrees(s, m)
    requires forall e :: IsTop(s, e) <==> IsTop(s', e)
    ensures Agrees(s', m)
  {
    hide IsTop;
    forall user ensures AgreesAt(s', m, user) {
      assert AgreesAt(s, m, user);
    }
  }

  lemma SameHoldsSameTops(s: State, s': State)
    requires s.versions != [] && s'.versions != [] && forall e :: Holds(s, e) <==> Holds(s', e)
    ensures forall e :: IsTop(s, e) <==> IsTop(s', e)
  {
    hide Holds;
  }

  // What an installed version holds besides the memtable: the new tables' entries, and the entries
  // of the files that stayed.
  lemma InstalledHolds(s: State, level: nat, tables: seq<seq<seq<Entry>>>, gone: seq<FileId>, e: Entry)
    requires Replaceable(s, gone)
    ensures var s' := Install(s, level, tables, gone);
            && s'.versions != []
            && (Holds(s', e) <==>
                  || e in s.mem || e in AllEntries(tables)
                  || exists f | f in Current(s) && f !in gone && f in s.disk :: e in Contents(s.disk[f]))
  {
    hide Contents, Install, G.NoDuplicates;
    var s' := Install(s, level, tables, gone);
    InstallHasVersion(s, level, tables, gone);
    if exists f | f in Current(s') && f in s'.disk :: e in Contents(s'.disk[f]) {
      var f :| f in Current(s') && f in s'.disk && e in Contents(s'.disk[f]);
      InstalledFile(s, level, tables, gone, f);
      if f >= s.nextFile {
        ContentsOf(level, s.clock + (f - s.nextFile), tables[f - s.nextFile]);
        AllOf(tables, f - s.nextFile, e);
      }
    }
    if e in AllEntries(tables) {
      var t := SomeTable(tables, e);
      NewFileThere(s, level, tables, gone, t);
      ContentsOf(level, s.clock + t, tables[t]);
    }
    if exists f | f in Current(s) && f !in gone && f in s.disk :: e in Contents(s.disk[f]) {
      var f :| f in Current(s) && f !in gone && f in s.disk && e in Contents(s.disk[f]);
      OldFileThere(s, level, tables, gone, f);
    }
  }

  predicate Lists(s: State, f: FileId, r: FileRec) {
    s.versions != [] && f in Current(s) && f in s.disk && s.disk[f] == r
  }

  lemma NewFileThere(s: State, level: nat, tables: seq<seq<seq<Entry>>>, gone: seq<FileId>, t: nat)
    requires s.versions != [] && Replaceable(s, gone) && t < |tables|
    ensures Lists(Install(s, level, tables, gone), s.nextFile + t, FileRec(level, s.clock + t, tables[t]))
  {
    hide Install, Contents, Replaceable;
    InstalledFiles(s, level, tables, gone);
    InstalledFile(s, level, tables, gone, s.nextFile + t);
  }

  lemma OldFileThere(s: State, level: nat, tables: seq<seq<seq<Entry>>>, gone: seq<FileId>, f: FileId)
    requires s.versions != [] && Replaceable(s, gone) && f in Current(s) && f !in gone
    ensures f in s.disk && f < s.nextFile && Lists(Install(s, level, tables, gone), f, s.disk[f])
  {
    hide Install, G.NoDuplicates;
    InstalledFiles(s, level, tables, gone);
    InstalledFile(s, level, tables, gone, f);
  }

  // A flush moves the memtable's entries to level 0 and loses none.
  lemma FlushHolds(cfg: TableConfig, s: State, tables: seq<seq<seq<Entry>>>, s': State)
    requires Sound(cfg, s) && s.versions != [] && FlushStep(cfg, s, tables, s')
    ensures s'.versions != [] && forall e :: Holds(s, e) <==> Holds(s', e)
  {
    hide Contents, WellFormed, Sound, Replaceable, Install, AllEntries;
    if s.mem != [] {
      var s0 := s.(mem := [], memBytes := 0);
      FlushedMem(cfg, s, tables, s');
      InstallHasVersion(s0, 0, tables, []);
      forall e ensures Holds(s, e) <==> Holds(s', e) {
        InstalledHolds(s0, 0, tables, [], e);
      }
    }
  }

  // A flush installs the tables in a store without memtable.
  lemma FlushedMem(cfg: TableConfig, s: State, tables: seq<seq<seq<Entry>>>, s': State)
    requires Sound(cfg, s) && s.versions != [] && FlushStep(cfg, s, tables, s') && s.mem != []
    ensures var s0 := s.(mem := [], memBytes := 0);
              s' == Install(s0, 0, tables, []) && Replaceable(s0, []) && AllEntries(tables) == s.mem
  {
    hide WellFormed, AllEntries, SnapsOk, MemOk, MemOverAll, DiskOk, VersionsOk, G.NoDuplicates, G.WithDelta;
    CurrentReplaceable(cfg, s, []);
  }

  lemma FlushAgrees(cfg: TableConfig, s: State, tables: seq<seq<seq<Entry>>>, s': State, m: map<Data, Data>)
    requires Sound(cfg, s) && s.versions != [] && Agrees(s, m) && FlushStep(cfg, s, tables, s')
    ensures s'.versions != [] && Agrees(s', m)
  {
    hide Agrees, Sound, FlushStep, IsTop, Holds;
    FlushHolds(cfg, s, tables, s');
    SameHoldsSameTops(s, s');
    SameTopsAgree(s, s', m);
  }

  // A compaction may drop versions, but never the newest one of a key.
  lemma CompactTops(cfg: TableConfig, s: State, level: nat, sel: seq<FileId>, tables: seq<seq<seq<Entry>>>)
    requires Sound(cfg, s) && s.versions != [] && Compacts(cfg, s, sel, tables)
    ensures var s' := Install(s, level, tables, sel);
            && s'.versions != [] && (forall e | Holds(s', e) :: Holds(s, e))
            && (forall e | Holds(s, e) :: Superseded(s', e))
            && (forall e :: IsTop(s, e) <==> IsTop(s', e))
  {
    hide Sound, Compacts, Install, Holds, Replaceable, IsTop;
    CompactReplaces(cfg, s, sel, tables);
    InstallHasVersion(s, level, tables, sel);
    var s' := Install(s, level, tables, sel);
    forall e | Holds(s', e) ensures Holds(s, e) {
      InstalledHolds(s, level, tables, sel, e);
      CompactedHeld(cfg, s, sel, tables, e);
    }
    forall e | Holds(s, e) ensures Superseded(s', e) {
      var k := CompactKeepsVersion(cfg, s, sel, tables, e);
      InstalledHolds(s, level, tables, sel, k);
    }
    forall e ensures IsTop(s, e) <==> IsTop(s', e) {
      TopEitherWay(cfg, s, s', e);
    }
  }

  lemma CompactReplaces(cfg: TableConfig, s: State, sel: seq<FileId>, tables: seq<seq<seq<Entry>>>)
    requires Sound(cfg, s) && s.versions != [] && Compacts(cfg, s, sel, tables)
    ensures Replaceable(s, sel)
  {
    hide Compacts, SnapsOk, MemOk, MemOverAll, DiskOk, VersionsOk, Replaceable;
    CompactsSome(cfg, s, sel, tables);
    CurrentReplaceable(cfg, s, sel);
  }

  lemma CompactedHeld(cfg: TableConfig, s: State, sel: seq<FileId>, tables: seq<seq<seq<Entry>>>, e: Entry)
    requires s.versions != [] && Compacts(cfg, s, sel, tables)
    requires || e in s.mem || e in AllEntries(tables)
             || exists f | f in Current(s) && f !in sel && f in s.disk :: e in Contents(s.disk[f])
    ensures Holds(s, e)
  {
    hide Contents, Compacts, AllEntries;
    if e !in s.mem && e in AllEntries(tables) {
      var t := SomeTable(tables, e);
      var h := OutputFrom(cfg, s, sel, tables, t, e);
      CompactsSome(cfg, s, sel, tables);
    }
  }

  // Some output holds a version of an entry's key at least as new, if the entry's file is selected.
  lemma MergedVersion(cfg: TableConfig, s: State, sel: seq<FileId>, tables: seq<seq<seq<Entry>>>, f: FileId, e: Entry)
    returns (t: nat, k: Entry)
    requires Compacts(cfg, s, sel, tables) && f in sel && f in s.disk && e in Contents(s.disk[f])
    ensures t < |tables| && k in Flat(tables[t]) && k in AllEntries(tables) && k.key.user == e.key.user
    ensures e.key.seqNo <= k.key.seqNo
  {
    hide Contents, MergeableTables, DevideAndConquerMerge, Flat, WellFormed, Keeps, Covered, Backwards;
    var lists := Backwards(s, sel);
    var merged := DevideAndConquerMerge(lists);
    SelectedEntry(s, sel, f, e);
    MergeTablesNewest(lists);
    k := CoveringVersion(merged, lists, e);
    ReverseReverses(merged);
    t := SomeTable(tables, k);
  }

  lemma CoveringVersion(merged: seq<Entry>, lists: seq<seq<Entry>>, e: Entry) returns (k: Entry)
    requires Keeps(merged, Flat(lists)) && e in Flat(lists)
    ensures k in merged && k.key.user == e.key.user && e.key.seqNo <= k.key.seqNo
  {
    assert Covered(merged, e);
    var j :| 0 <= j < |merged| && merged[j].key.user == e.key.user && e.key.seqNo <= merged[j].key.seqNo;
    k := merged[j];
  }

  // Each held version is kept, or a newer version of its key is.
  lemma CompactKeepsVersion(cfg: TableConfig, s: State, sel: seq<FileId>, tables: seq<seq<seq<Entry>>>, e: Entry)
    returns (k: Entry)
    requires s.versions != [] && Compacts(cfg, s, sel, tables) && Holds(s, e)
    ensures k.key.user == e.key.user && e.key.seqNo <= k.key.seqNo
    ensures || k in s.mem || k in AllEntries(tables)
            || exists f | f in Current(s) && f !in sel && f in s.disk :: k in Contents(s.disk[f])
  {
    hide Contents, Compacts, AllEntries;
    k := e;
    if e !in s.mem {
      var f :| f in Current(s) && f in s.disk && e in Contents(s.disk[f]);
      if f in sel {
        var t;
        t, k := MergedVersion(cfg, s, sel, tables, f, e);
      }
    }
  }

  lemma CompactAgrees(cfg: TableConfig, opt: Options, s: State, l: nat, ratio: real,
                      byTime: seq<FileId>, pulled: seq<FileId>, tables: seq<seq<seq<Entry>>>, s': State, 
                      m: map<Data, Data>)
    requires Sound(cfg, s) && s.versions != [] && Agrees(s, m)
    requires CompactStep(cfg, opt, s, l, ratio, byTime, pulled, tables, s')
    ensures s'.versions != [] && Agrees(s', m)
  {
    hide Agrees, Sound, CompactStep, Holds, IsTop, Compacts, Install, Selected;
    StepCompacts(cfg, opt, s, l, ratio, byTime, pulled, tables, s');
    CompactTops(cfg, s, l + 1, Selected(byTime, pulled, ratio), tables);
    SameTopsAgree(s, s', m);
  }

  lemma TopEitherWay(cfg: TableConfig, s: State, s': State, e: Entry)
    requires Sound(cfg, s) && s.versions != [] && s'.versions != []
    requires forall x | Holds(s', x) :: Holds(s, x)
    requires forall x | Holds(s, x) :: Superseded(s', x)
    ensures IsTop(s, e) <==> IsTop(s', e)
  {
    hide Sound, Holds;
    if IsTop(s, e) {
      TopHolds(s, e);
      assert Superseded(s', e);
      var k :| Holds(s', k) && k.key.user == e.key.user && e.key.seqNo <= k.key.seqNo;
      assert Holds(s, k);
      SameTop(cfg, s, k, e);
    }
    if IsTop(s', e) {
      forall x | Holds(s, x) && x.key.user == e.key.user ensures x.key.seqNo <= e.key.seqNo {
        assert Superseded(s', x);
        var k :| Holds(s', k) && k.key.user == x.key.user && x.key.seqNo <= k.key.seqNo;
      }
    }
  }

  lemma CollectHolds(cfg: TableConfig, s: State)
    requires Sound(cfg, s) && s.versions != []
    ensures CollectGarbage(s).versions != [] && forall e :: Holds(s, e) <==> Holds(CollectGarbage(s), e)
  {
    hide Contents, WellFormed, KeySorted, SnapsOk, Newer, Above, CollectGarbage, Pinned;
    var s' := CollectGarbage(s);
    CollectMeans(s);
    CollectFrame(s);
    assert s'.versions[|s'.versions| - 1] in s'.versions;
    forall e ensures Holds(s, e) <==> Holds(s', e) {}
  }

  lemma CollectAgrees(cfg: TableConfig, s: State, m: map<Data, Data>)
    requires Sound(cfg, s) && s.versions != [] && Agrees(s, m)
    ensures CollectGarbage(s).versions != [] && Agrees(CollectGarbage(s), m)
  {
    hide Sound, Agrees, Holds, IsTop, CollectGarbage;
    CollectHolds(cfg, s);
    SameHoldsSameTops(s, CollectGarbage(s));
    SameTopsAgree(s, CollectGarbage(s), m);
  }
}
