/** The database itself (db/db_local.cc): an object whose table files are bytes, verified against
    the plain map its clients believe to have. */
module Database {
  import opened Bytes
  import opened Keys
  import opened BlockFiles
  import opened BlockImages
  import opened TableImages
  import opened TableLookup
  import opened TableReads
  import opened TableTheorems
  import opened TableLimits
  import opened Merging
  import opened TableWriting
  import opened Store
  import opened StoreInvariant
  import opened StoreRefinement
  import opened StoreRuns
  import opened StoreExact
  import opened StoreBytes
  import opened StoreLimits
  import opened StoreLevels
  import opened StoreInserts
  import opened Memtables
  import opened Bloom
  import G = Guarding

  /* A table file: its level, its write time, its bytes. */
  datatype DiskFile = DiskFile(level: nat, time: nat, bytes: Data)

  // The bytes on disk are those the builder wrote for these blocks.
  ghost predicate FilesStored(cfg: TableConfig, files: map<FileId, DiskFile>, disk: map<FileId, FileRec>) {
    && cfg.block.interval > 4 && files.Keys == disk.Keys
    && forall f | f in disk :: files[f] == DiskFile(disk[f].level, disk[f].time, TableOf(cfg, disk[f].parts))
  }

  // What holds between two calls: the store is sound and within its limits, and agrees with the plain map.
  ghost predicate Good(cfg: TableConfig, s: State, plain: map<Data, Data>, files: map<FileId, DiskFile>) {
    Sound(cfg, s) && s.versions != [] && Agrees(s, plain) && Bounded(s) && FilesStored(cfg, files, s.disk)
  }

  /* ------------------------------------------------------------- lists of files */

  function Times(files: map<FileId, DiskFile>): map<FileId, nat> {
    map f | f in files :: files[f].time
  }

  function Sizes(files: map<FileId, DiskFile>): map<FileId, nat> {
    map f | f in files :: |files[f].bytes|
  }

  lemma SizesOf(files: map<FileId, DiskFile>)
    ensures forall f | f in files :: f in Sizes(files)
  {}

  // Inserted by rank, behind what ranks the same.
  function InsertBy(rank: map<FileId, nat>, list: seq<FileId>, f: FileId): seq<FileId>
    requires f in rank && forall g | g in list :: g in rank
  {
    if list == [] || rank[list[|list| - 1]] <= rank[f] then list + [f]
    else InsertBy(rank, list[..|list| - 1], f) + [list[|list| - 1]]
  }

  ghost predicate Ranked(rank: map<FileId, nat>, list: seq<FileId>) {
    && (forall g | g in list :: g in rank)
    && forall i, j | 0 <= i < j < |list| :: rank[list[i]] < rank[list[j]]
  }

  // Ascending, ties allowed.
  ghost predicate Ascends(rank: map<FileId, nat>, list: seq<FileId>) {
    && (forall g | g in list :: g in rank)
    && forall i, j | 0 <= i < j < |list| :: rank[list[i]] <= rank[list[j]]
  }

  lemma {:induction false} InsertByHolds(rank: map<FileId, nat>, list: seq<FileId>, f: FileId)
    requires f in rank && forall g | g in list :: g in rank
    ensures multiset(InsertBy(rank, list, f)) == multiset(list) + multiset{f}
    ensures forall g :: g in InsertBy(rank, list, f) <==> g in list || g == f
  {
    if list != [] {
      var front, last := list[..|list| - 1], list[|list| - 1];
      assert list == front + [last];
      InsertByHolds(rank, front, f);
    }
    forall g ensures g in InsertBy(rank, list, f) <==> g in list || g == f {
      assert g in multiset(InsertBy(rank, list, f)) <==> g in multiset(list) + multiset{f};
    }
  }

  lemma RankedSnoc(rank: map<FileId, nat>, list: seq<FileId>, f: FileId)
    requires Ranked(rank, list) && f in rank && forall g | g in list :: rank[g] < rank[f]
    ensures Ranked(rank, list + [f])
  {
    var all := list + [f];
    forall i, j | 0 <= i < j < |all| ensures rank[all[i]] < rank[all[j]] {
      assert all[i] == list[i] && list[i] in list;
    }
  }

  lemma RankedFront(rank: map<FileId, nat>, front: seq<FileId>, last: FileId)
    requires Ranked(rank, front + [last])
    ensures Ranked(rank, front) && last in rank && forall g | g in front :: g in rank && rank[g] < rank[last]
  {
    var all := front + [last];
    assert all[|front|] == last;
    forall g | g in front ensures g in rank && rank[g] < rank[last] {
      var i :| 0 <= i < |front| && front[i] == g;
      assert all[i] == g;
    }
    forall i, j | 0 <= i < j < |front| ensures rank[front[i]] < rank[front[j]] {
      assert all[i] == front[i] && all[j] == front[j];
    }
  }

  lemma AscendsNone(rank: map<FileId, nat>)
    ensures Ascends(rank, [])
  {}

  lemma {:induction false} InsertByAscends(rank: map<FileId, nat>, list: seq<FileId>, f: FileId)
    requires Ascends(rank, list) && f in rank && forall g | g in list :: g in rank
    ensures Ascends(rank, InsertBy(rank, list, f))
  {
    if list != [] && rank[list[|list| - 1]] > rank[f] {
      var front, last := list[..|list| - 1], list[|list| - 1];
      InsertByAscends(rank, front, f);
      InsertByHolds(rank, front, f);
      forall g | g in InsertBy(rank, front, f) ensures rank[g] <= rank[last] {
        if g != f { assert g in front; }
      }
    }
  }

  // What is taken from an ascending list in order ascends.
  lemma AscendsOn(rank: map<FileId, nat>, list: seq<FileId>, k: nat, taken: seq<FileId>)
    requires Ascends(rank, list) && k < |list| && Ascends(rank, taken) && forall f | f in taken :: f in list[..k]
    ensures Ascends(rank, taken + [list[k]])
  {
    forall f | f in taken ensures rank[f] <= rank[list[k]] {
      var i :| 0 <= i < k && list[i] == f;
    }
  }

  lemma {:induction false} InsertByRanks(rank: map<FileId, nat>, list: seq<FileId>, f: FileId)
    requires Ranked(rank, list) && f in rank && (forall g | g in list :: g in rank && rank[g] != rank[f])
    ensures Ranked(rank, InsertBy(rank, list, f))
  {
    hide Ranked;
    if list == [] {
      RankedNone(rank);
      RankedSnoc(rank, [], f);
    } else {
      var front, last := list[..|list| - 1], list[|list| - 1];
      assert list == front + [last];
      RankedFront(rank, front, last);
      if rank[last] <= rank[f] {
        RankedSnoc(rank, list, f);
      } else {
        assert last in list && forall g | g in front :: g in list;
        InsertByRanks(rank, front, f);
        InsertByHolds(rank, front, f);
        RankedSnoc(rank, InsertBy(rank, front, f), last);
      }
    }
  }

  lemma RankedNone(rank: map<FileId, nat>)
    ensures Ranked(rank, [])
  {}

  lemma RankedDistinct(rank: map<FileId, nat>, list: seq<FileId>)
    requires Ranked(rank, list)
    ensures G.NoDuplicates(list)
  {}

  /* ------------------------------------------------------------------ facts used */

  lemma GoodOpens(cfg: TableConfig, s: State, plain: map<Data, Data>, files: map<FileId, DiskFile>, f: FileId,
                  junk: Junk)
    requires Good(cfg, s, plain, files) && f in s.disk
    ensures f in files && ParseTable(cfg.block, files[f].bytes, junk).Parsed?
    ensures var t := ParseTable(cfg.block, files[f].bytes, junk).table;
            && EntriesFromBlocks(cfg.block, files[f].bytes, t.extents, junk) == Some(Contents(s.disk[f]))
            && t.meta == MetaOf(cfg, Contents(s.disk[f]))
  {
    hide Agrees, Bounded, TableOf, WellFormed, ParseTable, EntriesFromBlocks, VersionsOk, SnapsOk, MemOk, MemOverAll,
         Flat, MetaOf, Extents;
    assert GoodFile(cfg, s.disk[f], s.nextSeq, s.clock);
    TableEntries(cfg, s.disk[f].parts, junk);
    TableOpens(cfg, s.disk[f].parts, junk);
  }

  function BytesOf(files: map<FileId, DiskFile>): map<FileId, Data> {
    map f | f in files :: files[f].bytes
  }

  lemma GoodStored(cfg: TableConfig, s: State, plain: map<Data, Data>, files: map<FileId, DiskFile>, hash: Hash)
    requires Good(cfg, s, plain, files) && cfg.filter == Policy(Params(hash, 64))
    ensures StoredAs(cfg, s, BytesOf(files))
  {
    hide Agrees, Bounded, TableOf, Sound, Policy, FilterKeeps;
    forall f | f in s.disk ensures FilterKeeps(cfg, Contents(s.disk[f])) {
      DatabaseFilterKeeps(cfg, hash, Contents(s.disk[f]));
    }
  }

  lemma GoodCurrent(cfg: TableConfig, s: State, plain: map<Data, Data>, files: map<FileId, DiskFile>)
    requires Good(cfg, s, plain, files)
    ensures s.versions != [] && Readable(s.disk, Current(s)) && 1 <= s.nextSeq <= 0x1_0000_0000
    ensures G.NoDuplicates(Current(s))
    ensures forall f | f in Current(s) ::
              f in s.disk && f in files && files[f].level == s.disk[f].level && files[f].time == s.disk[f].time
  {
    hide Agrees, Bounded, TableOf, Sound, AllVisible, MemAbove, KeySorted, Below, Apart, Above, Contents,
         G.NoDuplicates;
    CurrentGood(cfg, s);
  }

  // Two files of one level were written at different times.
  lemma GoodTimes(cfg: TableConfig, s: State, plain: map<Data, Data>, files: map<FileId, DiskFile>, f: FileId,
                  g: FileId)
    requires Good(cfg, s, plain, files) && f in Current(s) && g in Current(s) && f != g
    ensures f in files && g in files && (files[f].level == files[g].level ==> files[f].time != files[g].time)
  {
    hide Agrees, Bounded, TableOf, Sound, AllVisible, MemAbove, KeySorted, Below, Apart, Contents, G.NoDuplicates;
    CurrentGood(cfg, s);
  }

  lemma GoodApart(cfg: TableConfig, s: State, plain: map<Data, Data>, files: map<FileId, DiskFile>, k: nat)
    requires Good(cfg, s, plain, files) && k < |Current(s)|
    ensures Current(s)[k] in files && Current(s)[k] in s.disk
    ensures files[Current(s)[k]].level == s.disk[Current(s)[k]].level
    ensures forall g | g in Current(s)[..k] ::
              g in files && (files[g].level == files[Current(s)[k]].level ==>
              files[g].time != files[Current(s)[k]].time)
  {
    hide Good;
    GoodCurrent(cfg, s, plain, files);
    var f := Current(s)[k];
    assert f in Current(s);
    forall g | g in Current(s)[..k]
      ensures g in files && (files[g].level == files[f].level ==> files[g].time != files[f].time)
    {
      var i :| 0 <= i < k && Current(s)[i] == g;
      GoodTimes(cfg, s, plain, files, f, g);
    }
  }

  lemma GoodParts(cfg: TableConfig, s: State, plain: map<Data, Data>, files: map<FileId, DiskFile>)
    requires Good(cfg, s, plain, files)
    ensures Sound(cfg, s) && s.versions != [] && Agrees(s, plain) && Bounded(s) && FilesStored(cfg, files, s.disk)
    ensures cfg.block.interval > 4
  {}

  lemma GoodFrom(cfg: TableConfig, s: State, plain: map<Data, Data>, files: map<FileId, DiskFile>)
    requires Sound(cfg, s) && s.versions != [] && Agrees(s, plain) && Bounded(s) && FilesStored(cfg, files, s.disk)
    ensures Good(cfg, s, plain, files)
  {}

  // The files of new tables, next to Store.NewFiles.
  ghost function NewDiskFiles(cfg: TableConfig, s: State, level: nat, tables: Tables): map<FileId, DiskFile>
    requires cfg.block.interval >= 1
  {
    map f | f in NewIds(s, |tables|) ::
        DiskFile(level, s.clock + (f - s.nextFile), TableOf(cfg, tables[f - s.nextFile]))
  }

  lemma NewDiskFile(cfg: TableConfig, s: State, level: nat, tables: Tables, k: nat)
    requires cfg.block.interval >= 1 && k < |tables|
    ensures NewDiskFiles(cfg, s, level, tables[..k + 1])
         == NewDiskFiles(cfg, s, level, tables[..k])
            [s.nextFile + k := DiskFile(level, s.clock + k, TableOf(cfg, tables[k]))]
  {
    hide TableOf, NewIds;
    NewIdsMean(s, k);
    NewIdsMean(s, k + 1);
  }

  lemma NewFile(s: State, level: nat, tables: Tables, k: nat)
    requires k < |tables|
    ensures NewFiles(s, level, tables[..k + 1]) ==
              NewFiles(s, level, tables[..k])[s.nextFile + k := FileRec(level, s.clock + k, tables[k])]
    ensures NewIds(s, k + 1) == NewIds(s, k) + [s.nextFile + k]
  {
    hide NewIds;
    NewIdsMean(s, k);
    NewIdsMean(s, k + 1);
    assert NewIds(s, k + 1) == NewIds(s, k) + [s.nextFile + k] by { OneMoreId(s, k); }
  }

  lemma OneMoreId(s: State, k: nat)
    ensures NewIds(s, k + 1) == NewIds(s, k) + [s.nextFile + k]
  {}

  lemma NoNewFiles(cfg: TableConfig, s: State, level: nat)
    requires cfg.block.interval >= 1
    ensures NewDiskFiles(cfg, s, level, []) == map[] && NewFiles(s, level, []) == map[] && NewIds(s, 0) == []
  {}

  lemma NewFilesStored(cfg: TableConfig, s: State, level: nat, tables: Tables, files: map<FileId, DiskFile>)
    requires FilesStored(cfg, files, s.disk)
    ensures FilesStored(cfg, files + NewDiskFiles(cfg, s, level, tables), s.disk + NewFiles(s, level, tables))
  {
    hide TableOf;
  }

  // The reps that the guards of these files point to.
  function RepsOf(files: map<FileId, DiskFile>): map<G.Rep, G.File> {
    map f | f in files :: G.File(files[f].level, f)
  }

  lemma RepsStored(cfg: TableConfig, files: map<FileId, DiskFile>, disk: map<FileId, FileRec>)
    requires FilesStored(cfg, files, disk)
    ensures RepsOf(files) == Reps(disk)
  {
    hide TableOf;
  }

  // Snapshots other than k are neither lost, nor added, nor changed.
  ghost predicate OthersStay(before: map<nat, Snapshot>, after: map<nat, Snapshot>, k: nat) {
    forall j | j != k :: (j in after <==> j in before) && (j in after ==> after[j] == before[j])
  }

  ghost predicate Pins(before: map<nat, Snapshot>, after: map<nat, Snapshot>, k: nat, snap: Snapshot) {
    k in after && after[k] == snap && OthersStay(before, after, k)
  }

  lemma PinsTaken(snaps: map<nat, Snapshot>, k: nat, snap: Snapshot)
    ensures Pins(snaps, snaps[k := snap], k, snap)
  {}

  lemma OthersDropped(snaps: map<nat, Snapshot>, k: nat)
    ensures OthersStay(snaps, snaps - {k}, k)
  {}

  // What the database asks of its configuration: an interval that tables can be opened with, blocks and
  // a compressor within limits, and the filter it makes itself.
  ghost predicate Suits(cfg: TableConfig, hash: Hash) {
    && Usable(cfg.block) && cfg.block.interval > 4 && cfg.blockSize <= MAX_BLOCK
    && (cfg.block.codec.Some? ==> Grows(cfg.block.codec.value)) && cfg.filter == Policy(Params(hash, 64))
  }

  lemma SuitsRoomy(cfg: TableConfig, hash: Hash)
    requires Suits(cfg, hash)
    ensures Roomy(cfg) && cfg.block.interval > 4 && cfg.filter == Policy(Params(hash, 64))
  {
    hide Policy, Usable, Grows;
    forall key, rep ensures |cfg.filter.append(key, rep)| == |rep| + 9 {
      DatabaseFilterGrows(hash, key, rep);
    }
  }

  class DbLocal {
    const cfg: TableConfig
    const opt: Options
    const hash: Hash
    const center: SnapshotCenter
    var mem: Memtable
    var clock: nat
    var nextFile: FileId
    var nextVersion: nat
    var files: map<FileId, DiskFile>
    var versions: seq<VersionRec>
    var snaps: map<nat, Snapshot>
    var forceGCHint: nat
    ghost var disk: map<FileId, FileRec>
    ghost var plain: map<Data, Data>

    ghost function ValueAt(next: nat): State
      reads this, mem
    {
      State(mem.list, mem.sizeBytes, next, clock, nextFile, nextVersion, disk, versions, snaps)
    }

    ghost predicate ValidAt(next: nat)
      reads this, mem
    {
      && Configured() && mem.bound == opt.memBound
      && Good(cfg, ValueAt(next), plain, files)
    }

    // The options: the policy asserts that no level is allowed a single file, the number of files allowed on
    // level 0 says how often a flush is followed by a compaction, and files of levels 0 and 1 have a size.
    ghost predicate Configured() {
      && Roomy(cfg) && cfg.filter == Policy(Params(hash, 64)) && opt.allowed != [] && opt.allowed[0] >= 2
      && FileSize(opt, 0) != 0 && FileSize(opt, 1) != 0
      && forall l :: AlwaysTwo(opt, l, 1.0)
    }

    ghost function Value(): State
      reads this, mem, center
    {
      ValueAt(center.newestUnused)
    }

    ghost predicate Valid()
      reads this, mem, center
    {
      ValidAt(center.newestUnused)
    }

    // The object is at rest in this state.
    ghost predicate Is(s: State)
      reads this, mem
    {
      s == ValueAt(s.nextSeq) && ValidAt(s.nextSeq) && s.versions != []
    }

    constructor (cfg: TableConfig, opt: Options, hash: Hash)
      requires Suits(cfg, hash) && FileSize(opt, 0) != 0 && FileSize(opt, 1) != 0
      requires opt.allowed != [] && opt.allowed[0] >= 2 && forall l | 0 <= l < |opt.allowed| :: opt.allowed[l] != 1
      ensures Valid() && fresh(mem) && fresh(center) && plain == map[] && Value() == Init() && forceGCHint == 0
      ensures this.cfg == cfg && this.opt == opt && this.hash == hash
    {
      this.cfg, this.opt, this.hash, forceGCHint := cfg, opt, hash, 0;
      center := new SnapshotCenter();
      mem := new Memtable(opt.memBound);
      clock, nextFile, nextVersion, files, versions, snaps := 0, 0, 1, map[], [VersionRec(0, [])], map[];
      disk, plain := map[], map[];
      new;
      hide Roomy, Policy, AlwaysTwo, Good;
      SuitsRoomy(cfg, hash);
      SharesSupply(opt);
      InitGood(cfg);
    }

    /* ---- reading */

    // One file: opened, its meta data parsed, the key searched.
    method AskFile(f: FileId, user: Data, q: SeqNo, junk: Junk) returns (a: Answer)
      requires f in files
      ensures a == FileAnswer(cfg, files[f].bytes, user, q, junk)
    {
      var t := ParseMetaData(cfg.block, files[f].bytes, junk);
      if !t.Parsed? {
        return Broken;
      }
      a := TableGetKvEntry(cfg, files[f].bytes, t.table, user, q, junk);
    }

    // All files of one level; the greatest key among the answers counts.
    method AskLevel(list: seq<FileId>, l: nat, user: Data, q: SeqNo, junk: Junks, ghost s: State) returns (a: Answer)
      requires forall f | f in list :: f in files && f in s.disk && files[f].level == s.disk[f].level
      ensures a == LevelBytes(cfg, s, BytesOf(files), list, l, user, q, junk)
    {
      hide FileAnswer, LaterAnswer;
      a := Absent;
      var k := |list|;
      assert list[|list|..] == [];
      while k > 0
        invariant 0 <= k <= |list| && a == LevelBytes(cfg, s, BytesOf(files), list[k..], l, user, q, junk)
      {
        k := k - 1;
        assert list[k..] == [list[k]] + list[k + 1..];
        if files[list[k]].level == l {
          var b := AskFile(list[k], user, q, junk(list[k]));
          a := LaterAnswer(b, a);
        }
      }
    }

    method CountLevels(list: seq<FileId>, ghost s: State) returns (n: nat)
      requires Readable(s.disk, list) && forall f | f in list :: f in files && files[f].level == s.disk[f].level
      ensures n == Levels(s.disk, list)
    {
      n := 0;
      var k := |list|;
      assert list[|list|..] == [];
      while k > 0
        invariant 0 <= k <= |list| && n == Levels(s.disk, list[k..])
      {
        k := k - 1;
        assert list[k..] == [list[k]] + list[k + 1..];
        var m := files[list[k]].level + 1;
        n := if m < n then n else m;
      }
    }

    // The memtable, then level by level until one answers.
    method Find(list: seq<FileId>, user: Data, q: SeqNo, junk: Junks, ghost s: State) returns (a: Answer)
      requires s.mem == mem.list && Readable(s.disk, list)
      requires forall f | f in list :: f in files && f in s.disk && files[f].level == s.disk[f].level
      ensures a == match MemGet(s.mem, user, q)
                   case Some(e) => Found(e)
                   case None => SstBytes(cfg, s, BytesOf(files), list, user, q, 0, Levels(s.disk, list), junk)
    {
      hide MemGet, LevelBytes, Levels, Readable;
      var e := mem.Get(SeqKey(q, user));
      if e.Some? {
        return Found(e.value);
      }
      var levels := CountLevels(list, s);
      var l := 0;
      while l < levels
        invariant 0 <= l <= levels
        invariant SstBytes(cfg, s, BytesOf(files), list, user, q, 0, levels, junk)
               == SstBytes(cfg, s, BytesOf(files), list, user, q, l, levels, junk)
      {
        a := AskLevel(list, l, user, q, junk, s);
        if a != Absent {
          return;
        }
        l := l + 1;
      }
      a := Absent;
    }

    // db_local::get: what the store answers, which is what the plain map holds if the key is not stale.
    method Get(user: Data, junk: Junks) returns (r: Option<Data>)
      requires Valid() && ValidUser(user)
      ensures StoreAnswers(Value(), user, r)
      ensures !Stale(Value(), user) ==> r == Plain(user)
    {
      hide Good, Readable, MemGet, SstBytes, Levels, Lookup, Roomy, Policy, AlwaysTwo, Stale;
      ghost var s := Value();
      GoodCurrent(cfg, s, plain, files);
      var a := Find(versions[|versions| - 1].files, user, center.LatestUsed(), junk, s);
      r := AnswerValue(a);
      GoodAnswers(cfg, s, plain, files, hash, user, junk);
    }

    ghost function Plain(user: Data): Option<Data>
      reads this
    {
      if user in plain then Some(plain[user]) else None
    }

    // db_local::get with a snapshot that is held; one without a number is like none.
    method GetAt(k: nat, user: Data, junk: Junks) returns (r: Option<Data>)
      requires Valid() && ValidUser(user) && k in snaps
      ensures snaps[k].seqNo != 0 ==> SnapAnswers(Value(), snaps[k], user, r)
      ensures snaps[k].seqNo == 0 ==> StoreAnswers(Value(), user, r) && (!Stale(Value(), user) ==> r == Plain(user))
    {
      hide Good, Readable, MemGet, SstBytes, Levels, VersionFiles, SstGet, Policy, Roomy, AlwaysTwo, Stale;
      if snaps[k].seqNo == 0 {
        r := Get(user, junk);
        return;
      }
      ghost var s := Value();
      var list := VersionFiles(versions, snaps[k].version);
      SnapBytes(cfg, s, plain, files, hash, list, k, user, junk);
      var a := Find(list, user, snaps[k].seqNo, junk, s);
      r := AnswerValue(a);
    }

    /* ---- writing tables */

    // fake_file_to_disk for every new table.
    method WriteTables(level: nat, bytes: seq<Data>, ghost tables: Tables, ghost s: State) returns (added: seq<FileId>)
      requires cfg.block.interval >= 1 && clock == s.clock && nextFile == s.nextFile && disk == s.disk
      requires |bytes| == |tables| && forall t | 0 <= t < |tables| :: bytes[t] == TableOf(cfg, tables[t])
      modifies this`files, this`disk, this`clock, this`nextFile
      ensures added == NewIds(s, |tables|) && clock == s.clock + |tables| && nextFile == s.nextFile + |tables|
      ensures files == old(files) + NewDiskFiles(cfg, s, level, tables) && disk == s.disk + NewFiles(s, level, tables)
    {
      hide TableOf, NewDiskFiles, NewFiles, NewIds;
      NoNewFiles(cfg, s, level);
      added := [];
      var written := files;
      ghost var base := disk;
      for k := 0 to |bytes|
        modifies {}
        invariant added == NewIds(s, k) && written == files + NewDiskFiles(cfg, s, level, tables[..k])
        invariant base == s.disk + NewFiles(s, level, tables[..k])
      {
        NewDiskFile(cfg, s, level, tables, k);
        NewFile(s, level, tables, k);
        written := written[nextFile + k := DiskFile(level, clock + k, bytes[k])];
        base := base[nextFile + k := FileRec(level, clock + k, tables[k])];
        added := added + [nextFile + k];
      }
      assert tables[..|bytes|] == tables;
      files, disk, clock, nextFile := written, base, clock + |bytes|, nextFile + |bytes|;
    }

    // The new tables are written, then the new version is added with the delta applied.
    method InstallTables(level: nat, bytes: seq<Data>, ghost tables: Tables, compacted: seq<FileId>, ghost s: State)
      requires s == ValueAt(s.nextSeq) && versions != [] && FilesStored(cfg, files, disk) && cfg.block.interval >= 1
      requires |bytes| == |tables| && forall t | 0 <= t < |tables| :: bytes[t] == TableOf(cfg, tables[t])
      modifies this`files, this`disk, this`clock, this`nextFile, this`versions, this`nextVersion
      ensures ValueAt(s.nextSeq) == Install(s, level, tables, compacted) && FilesStored(cfg, files, disk)
    {
      hide FilesStored, TableOf, NewDiskFiles, NewFiles, NewIds, Reps, RepsOf, G.WithDelta;
      NewFilesStored(cfg, s, level, tables, files);
      var added := WriteTables(level, bytes, tables, s);
      RepsStored(cfg, files, disk);
      var now := G.WithDelta(RepsOf(files), versions[|versions| - 1].files, added, compacted);
      versions, nextVersion := versions + [VersionRec(nextVersion, now)], nextVersion + 1;
    }

    // memtable_flusher::flush_to_disk on the swapped out memtable.
    method FlushToDisk(ghost s: State) returns (ghost tables: Tables, ghost s': State)
      requires Is(s)
      modifies this`mem, this`files, this`disk, this`clock, this`nextFile, this`versions, this`nextVersion
      ensures Is(s') && s'.nextSeq == s.nextSeq && fresh(mem) && mem.list == [] && mem.sizeBytes == 0
      ensures Flushed(cfg, opt, s, tables, s') && HeldCount(s') <= HeldCount(s)
    {
      hide Good, RunsFit, Policy, Written, Install, FlushStep, KeySorted, WellFormed, TableOf, AllEntries, Roomy,
           AlwaysTwo, HeldCount, FilesStored, Divided, FileSize;
      GoodParts(cfg, s, plain, files);
      MemFits(cfg, s);
      var flushing := mem;
      mem := new Memtable(opt.memBound);
      tables := [];
      if flushing.list != [] {
        var bytes;
        bytes, tables := BuildTables(cfg, FileSize(opt, 0), flushing.list);
        WrittenTables(cfg, bytes, tables);
        InstallTables(0, bytes, tables, [], ValueAt(s.nextSeq));
      }
      s' := ValueAt(s.nextSeq);
      FlushIs(cfg, s, tables);
      FlushedGood(cfg, s, tables, s', plain);
      GoodFrom(cfg, s', plain, files);
    }

    /* ---- compaction */

    // The level's files of the current version, oldest first.
    method FilesAtLevel(l: nat, ghost s: State) returns (list: seq<FileId>)
      requires Good(cfg, s, plain, files) && s.versions == versions && s.disk == disk
      ensures Ranked(Times(files), list) && s.versions != [] && forall f :: f in list <==> AtLevel(s, l, f)
    {
      hide Good, Ranked;
      GoodCurrent(cfg, s, plain, files);
      var current := versions[|versions| - 1].files;
      list := [];
      RankedNone(Times(files));
      for k := 0 to |current|
        invariant Ranked(Times(files), list) && forall f :: f in list <==> f in current[..k] && AtLevel(s, l, f)
        invariant forall f | f in list :: f in files
      {
        var f := current[k];
        GoodApart(cfg, s, plain, files, k);
        assert current[..k + 1] == current[..k] + [f];
        if files[f].level == l {
          InsertByHolds(Times(files), list, f);
          InsertByRanks(Times(files), list, f);
          list := InsertBy(Times(files), list, f);
        }
      }
      assert current[..|current|] == current;
    }

    // Sorted by size.
    method SortBySize(list: seq<FileId>) returns (sorted: seq<FileId>)
      requires (forall f | f in list :: f in files) && G.NoDuplicates(list)
      ensures G.NoDuplicates(sorted) && (forall f :: f in sorted <==> f in list) && Ascends(Sizes(files), sorted)
    {
      hide Ascends, InsertBy, Sizes;
      sorted := [];
      AscendsNone(Sizes(files));
      SizesOf(files);
      for k := 0 to |list|
        invariant multiset(sorted) == multiset(list[..k]) && forall f :: f in sorted <==> f in list[..k]
        invariant Ascends(Sizes(files), sorted)
      {
        assert list[..k + 1] == list[..k] + [list[k]];
        InsertByHolds(Sizes(files), sorted, list[k]);
        InsertByAscends(Sizes(files), sorted, list[k]);
        sorted := InsertBy(Sizes(files), sorted, list[k]);
      }
      assert list[..|list|] == list;
      SameMultiset(list, sorted);
    }

    // The files of the next level that overlap the oldest one of this level.
    method PullFiles(l: nat, oldest: FileId, junk: Junks, ghost s: State) returns (pulled: seq<FileId>)
      requires Good(cfg, s, plain, files) && s.versions == versions && s.disk == disk && s.versions != []
      requires oldest in Current(s) && oldest in s.disk
      ensures G.NoDuplicates(pulled) && Ascends(Sizes(files), pulled)
      ensures forall f ::
                f in pulled <==> AtLevel(s, l + 1, f) && Overlap(Contents(s.disk[oldest]), Contents(s.disk[f]))
    {
      hide Good, Contents, Overlap, Disjoint, MetaOf, ParseTable, EntriesFromBlocks, Ranked, Ascends;
      var next := FilesAtLevel(l + 1, s);
      RankedDistinct(Times(files), next);
      GoodCurrent(cfg, s, plain, files);
      next := SortBySize(next);
      GoodOpens(cfg, s, plain, files, oldest, junk(oldest));
      var mine := ParseMetaData(cfg.block, files[oldest].bytes, junk(oldest));
      pulled := [];
      AscendsNone(Sizes(files));
      for k := 0 to |next|
        invariant G.NoDuplicates(pulled) && Ascends(Sizes(files), pulled)
        invariant forall f ::
                    f in pulled <==>
                    f in next[..k] && AtLevel(s, l + 1, f) && Overlap(Contents(s.disk[oldest]), Contents(s.disk[f]))
      {
        var f := next[k];
        assert f in next && next[..k + 1] == next[..k] + [f];
        GoodOpens(cfg, s, plain, files, f, junk(f));
        var theirs := ParseMetaData(cfg.block, files[f].bytes, junk(f));
        OverlapTest(cfg, s, plain, files, oldest, f);
        if !Disjoint(mine.table.meta, theirs.table.meta) {
          NotBefore(next, k, pulled);
          AscendsOn(Sizes(files), next, k, pulled);
          pulled := pulled + [f];
        }
      }
      assert next[..|next|] == next;
    }

    // The entries of the selected files, newest key first.
    method ReadTables(sel: seq<FileId>, junk: Junks, ghost s: State) returns (lists: seq<seq<Entry>>)
      requires Good(cfg, s, plain, files) && forall f | f in sel :: f in s.disk
      ensures lists == Backwards(s, sel)
    {
      hide Good, ParseTable, EntriesFromBlocks, Contents;
      lists := [];
      for k := 0 to |sel|
        invariant |lists| == k && forall i | 0 <= i < k :: lists[i] == Reverse(Contents(s.disk[sel[i]]))
      {
        GoodOpens(cfg, s, plain, files, sel[k], junk(sel[k]));
        var t := ParseMetaData(cfg.block, files[sel[k]].bytes, junk(sel[k]));
        var es := EntriesAtOnce(cfg.block, files[sel[k]].bytes, t.table, junk(sel[k]));
        lists := lists + [es.value];
      }
    }

    // compaction_policy_oldest::compacting_files with the ratio's share given back.
    method ChooseFiles(l: nat, byTime: seq<FileId>, ratio: real, junk: Junks, ghost s: State)
      returns (sel: seq<FileId>, ghost pulled: seq<FileId>)
      requires Good(cfg, s, plain, files) && s.versions == versions && s.disk == disk && s.versions != []
      requires Ranked(Times(files), byTime) && |byTime| >= 2 && (forall f :: f in byTime <==> AtLevel(s, l, f))
      requires 0.0 < ratio <= 1.0
      ensures Chosen(s, l, byTime, pulled) && sel == Selected(byTime, pulled, ratio) && Ascends(Sizes(files), pulled)
      ensures RoundsUp(|sel|, |byTime| - 1 + |pulled|, ratio)
    {
      hide Good, Ranked, Contents, Overlap, Kept, Ascends, RoundsUp;
      var extra: seq<FileId> := [];
      AscendsNone(Sizes(files));
      if l > 1 {
        assert byTime[0] in byTime;
        extra := PullFiles(l, byTime[0], junk, s);
      }
      pulled := extra;
      AscendingTimes(cfg, s, plain, files, byTime);
      var candidates := byTime[..|byTime| - 1] + extra;
      KeptExact(|candidates|, ratio);
      sel := candidates[..Kept(|candidates|, ratio)];
    }

    // compactor::compact: chooses, merges and writes out.
    method Compact(l: nat, byTime: seq<FileId>, ratio: real, junk: Junks, ghost s: State)
      returns (sel: seq<FileId>, bytes: seq<Data>, ghost pulled: seq<FileId>, ghost tables: Tables)
      requires Good(cfg, s, plain, files) && s.versions == versions && s.disk == disk && s.versions != []
      requires Configured()
      requires Ranked(Times(files), byTime) && |byTime| >= 2 && (forall f :: f in byTime <==> AtLevel(s, l, f))
      requires 0.0 < ratio <= 1.0
      requires NeedCompaction(opt, l, |byTime|, ratio) && AlwaysTwo(opt, l, ratio) && FileSize(opt, l + 1) != 0
      ensures Chosen(s, l, byTime, pulled) && sel == Selected(byTime, pulled, ratio) && Ascends(Sizes(files), pulled)
      ensures RoundsUp(|sel|, |byTime| - 1 + |pulled|, ratio)
      ensures Compacts(cfg, s, sel, tables) && Divided(cfg, FileSize(opt, l + 1), tables)
      ensures |bytes| == |tables| && forall t | 0 <= t < |tables| :: bytes[t] == TableOf(cfg, tables[t])
    {
      hide Good, Ranked, Selected, Backwards, Chosen, RunsFit, AllEntries, WellFormed, TableOf, Written,
           MergeableTables, DevideAndConquerMerge, Descending, Roomy, Policy, MergeWritten, NeedCompaction, Divided,
           FileSize, RoundsUp, Ascends;
      sel, pulled := ChooseFiles(l, byTime, ratio, junk, s);
      assert |sel| >= 2;
      SelectedMerges(cfg, s, plain, files, l, byTime, pulled, ratio);
      var lists := ReadTables(sel, junk, s);
      var merged := DevideAndConquerMerge(lists);
      MergedFits(cfg, s, plain, files, sel);
      bytes, tables := MergedListToSst(cfg, FileSize(opt, l + 1), merged);
      WrittenTables(cfg, bytes, tables);
      MergeWrittenIs(cfg, s, sel, tables);
    }

    // One level of may_compact: nothing happens when the level is small enough.
    method CompactLevel(l: nat, ratio: real, junk: Junks, ghost s: State)
      returns (done: bool, ghost step: Step, ghost s': State)
      requires Is(s) && l <= opt.maxLevel && 0.0 < ratio <= 1.0 && AlwaysTwo(opt, l, ratio)
      requires Needs(opt, s, l, ratio) ==> FileSize(opt, l + 1) != 0
      modifies this`files, this`disk, this`clock, this`nextFile, this`versions, this`nextVersion
      ensures Is(s') && s'.nextSeq == s.nextSeq && HeldCount(s') <= HeldCount(s)
      ensures done == Needs(opt, s, l, ratio) && if done then CompactedBy(cfg, opt, s, l, ratio, step, s') else s' == s
      ensures ratio == 1.0 ==> (done <==> l < |opt.allowed| && 0 < opt.allowed[l] < |LevelSet(s, l)|)
      ensures ratio == 0.7 ==> (done <==> l < |opt.allowed| && 10 <= 7 * opt.allowed[l] < 10 * |LevelSet(s, l)|)
    {
      hide Good, Policy, Selected, Install, CompactStep, TableOf, Roomy, AlwaysTwo, Ranked, LevelSet, NeedCompaction,
           HeldCount, Chosen, Compacts, Divided, FileSize, RoundsUp, Ascends;
      GoodParts(cfg, s, plain, files);
      NeedsFull(opt, l, |LevelSet(s, l)|);
      NeedsBackground(opt, l, |LevelSet(s, l)|);
      step, s' := DoCollect, s;
      var list := FilesAtLevel(l, s);
      RankedDistinct(Times(files), list);
      LevelCount(s, l, list);
      if !NeedCompaction(opt, l, |list|, ratio) {
        return false, step, s;
      }
      NeedsTwo(opt, l, |list|, ratio);
      var sel, bytes;
      ghost var pulled, tables;
      sel, bytes, pulled, tables := Compact(l, list, ratio, junk, s);
      CompactedGood(cfg, opt, s, l, ratio, list, pulled, tables, plain);
      InstallTables(l + 1, bytes, tables, sel, s);
      s' := ValueAt(s.nextSeq);
      GoodFrom(cfg, s', plain, files);
      done, step := true, DoCompact(l, ratio, list, pulled, tables);
    }

    // db_local::may_compact: the first level that needs it, and no other.
    method MayCompact(from: nat, ratio: real, junk: Junks, ghost s: State)
      returns (ghost steps: seq<Step>, ghost s': State)
      requires Is(s) && 0.0 < ratio <= 1.0 && forall l | from <= l <= opt.maxLevel :: AlwaysTwo(opt, l, ratio)
      requires forall l: nat | from <= l <= opt.maxLevel && Needs(opt, s, l, ratio) :: FileSize(opt, l + 1) != 0
      modifies this`files, this`disk, this`clock, this`nextFile, this`versions, this`nextVersion
      ensures Is(s') && s'.nextSeq == s.nextSeq && HeldCount(s') <= HeldCount(s)
      ensures CompactsFirst(cfg, opt, s, from, ratio, steps, s')
    {
      hide Good, CompactedBy, LevelSet, FileSize, DbLocal.Configured, AlwaysTwo, Needs, HeldCount;
      s' := s;
      var l := from;
      while l <= opt.maxLevel
        invariant Is(s) && s' == s && from <= l
        invariant forall k | from <= k < l && k <= opt.maxLevel :: !Needs(opt, s, k, ratio)
      {
        var done;
        ghost var step;
        done, step, s' := CompactLevel(l, ratio, junk, s);
        if done {
          assert step.level == l by { CompactedAt(cfg, opt, s, l, ratio, step, s'); }
          steps := [step];
          return;
        }
        l := l + 1;
      }
      steps := [];
    }

    /* ---- garbage and snapshots */

    // garbage_collector::do_GC
    method DoGC(ghost s: State) returns (ghost s': State)
      requires Is(s)
      modifies this`files, this`disk, this`versions
      ensures Is(s') && s' == CollectGarbage(s) && HeldCount(s') <= HeldCount(s)
    {
      hide Good, Policy, CollectGarbage, Listed, Roomy, AlwaysTwo, HeldCount, LiveVersions, Pinned;
      var kept := LiveLoop(s);
      CollectedGood(cfg, s, plain, files, kept);
      versions := kept;
      files, disk := Listed(files, kept), Listed(disk, kept);
      s' := CollectGarbage(s);
    }

    // The versions that a snapshot pins, and the last one.
    method LiveLoop(ghost s: State) returns (kept: seq<VersionRec>)
      requires s.versions == versions && s.snaps == snaps
      ensures kept == LiveVersions(s, s.versions)
    {
      hide LiveVersions;
      kept := [];
      for k := 0 to |versions|
        invariant LiveVersions(s, versions) == kept + LiveVersions(s, versions[k..])
      {
        LiveNext(s, versions[k..]);
        assert versions[k..][1..] == versions[k + 1..];
        if k == |versions| - 1 || (exists j | j in snaps :: snaps[j].version == versions[k].id) {
          kept := kept + [versions[k]];
        }
      }
      NoneLive(s);
      assert versions[|versions|..] == [];
    }

    // get_snapshot: for a key that is not stale it answers with what the plain map holds now.
    method TakeSnapshot(k: nat)
      requires Valid()
      modifies this`snaps
      ensures Valid() && old(versions) != [] && 1 <= center.newestUnused
      ensures Value() == Store.TakeSnapshot(old(Value()), k)
      ensures Pins(old(snaps), snaps, k, Snapshot(center.newestUnused - 1, old(versions)[|old(versions)| - 1].id))
      ensures HeldCount(Value()) == old(HeldCount(Value()))
      ensures AnswersPlain(old(Value()), Value(), k, plain)
    {
      hide Good, DbLocal.Configured, HeldCount, AnswersPlain, Pins;
      ghost var s := Value();
      GoodParts(cfg, s, plain, files);
      TakenGood(cfg, s, plain, files, k);
      var snap := Snapshot(center.LatestUsed(), versions[|versions| - 1].id);
      PinsTaken(snaps, k, snap);
      snaps := snaps[k := snap];
      TakenAnswers(cfg, s, plain, k);
    }

    method DropSnapshot(k: nat)
      requires Valid()
      modifies this`snaps
      ensures Valid() && old(versions) != [] && Value() == Store.DropSnapshot(old(Value()), k)
      ensures k !in snaps && OthersStay(old(snaps), snaps, k)
      ensures HeldCount(Value()) == old(HeldCount(Value()))
    {
      hide Good, DbLocal.Configured, HeldCount, OthersStay;
      GoodParts(cfg, Value(), plain, files);
      DroppedGood(cfg, Value(), plain, files, k);
      OthersDropped(snaps, k);
      snaps := snaps - {k};
    }

    /* ---- writing */

    // The memtable goes to disk; every so often a compaction and a collection follow.
    method MakeRoom(junk: Junks, ghost s: State) returns (ghost steps: seq<Step>, ghost s': State)
      requires Is(s) && Limited(opt, s)
      modifies this
      ensures Is(s') && s'.nextSeq == s.nextSeq && HeldCount(s') <= HeldCount(s) && s'.memBytes == 0
      ensures plain == old(plain) && snaps == old(snaps) && fresh(mem) && mem.bound == opt.memBound
      ensures forceGCHint == old(forceGCHint) + 1
      ensures MakesRoom(cfg, opt, s, Due(opt, old(forceGCHint)), steps, s')
    {
      hide Good, Policy, Flushed, CollectGarbage, CompactsFirst, Roomy, AlwaysTwo, HeldCount, Needs, FileSize, Limited;
      var gcHint := forceGCHint;
      forceGCHint := forceGCHint + 1;
      ghost var tables;
      GoodParts(cfg, s, plain, files);
      tables, s' := FlushToDisk(s);
      steps := [DoFlush(tables)];
      ghost var flushed := s';
      if gcHint % (opt.allowed[0] - 1) == 0 {
        StillLimited(cfg, opt, s, tables, flushed);
        ghost var done, compacted := MayCompact(0, 1.0, junk, flushed);
        s' := DoGC(compacted);
        steps := [DoFlush(tables)] + done + [DoCollect];
        assert RoomMade(cfg, opt, s, true, steps, s', tables, flushed, done, compacted);
      } else {
        assert RoomMade(cfg, opt, s, false, steps, s', tables, flushed, [], flushed);
      }
      RoomEmpties(cfg, opt, s, Due(opt, gcHint), steps, s');
    }

    // What a write must leave room for: sequence numbers and stored versions.
    ghost predicate RoomFor(batch: seq<Write>)
      reads this, mem, center
    {
      && SmallWrites(batch) && center.newestUnused + |batch| < 0x1_0000_0000
      && versions != [] && HeldCount(Value()) + |batch| <= MAX_HELD && Limited(opt, Value())
    }

    // db_local::insert, its loop cut off after some number of flushes. A batch that does not fit makes room
    // and is tried again: it is written at once, or after one flush, or never.
    method InsertWithin(batch: seq<Write>, rounds: nat, junk: Junks) returns (done: bool, ghost steps: seq<Step>)
      requires Valid() && RoomFor(batch) && (rounds <= 1 || AlwaysLimited(opt, 1.0))
      modifies this, mem, center
      ensures done <==>
                old(mem.sizeBytes) + BatchBytes(batch) <= opt.memBound
                || (rounds > 0 && BatchBytes(batch) <= opt.memBound)
      ensures center.newestUnused == old(center.newestUnused) + |batch| && snaps == old(snaps)
      ensures mem == old(mem) || fresh(mem)
      ensures forceGCHint == old(forceGCHint) + (if old(mem.sizeBytes) + BatchBytes(batch) <= opt.memBound then 0
                                                 else if BatchBytes(batch) <= opt.memBound && rounds > 0 then 1
                                                 else rounds)
      ensures done ==> Valid() && plain == ApplyAll(old(plain), batch) && old(versions) != [] && versions != []
      ensures done ==> HeldCount(Value()) <= old(HeldCount(Value())) + |batch|
      ensures done ==> Leads(cfg, opt, old(Value()), steps, Value()) && Inserts(steps, batch) && |steps| >= 1
      ensures done ==> (|steps| == 1 <==> old(mem.sizeBytes) + BatchBytes(batch) <= opt.memBound)
      ensures done && |steps| == 1 ==> Value() == PutAll(old(Value()), batch)
      ensures !done ==> ValidAt(old(center.newestUnused)) && plain == old(plain)
      ensures InsertRan(cfg, opt, old(Value()), old(forceGCHint), forceGCHint - old(forceGCHint), batch, done, steps,
                        ValueAt(if done then center.newestUnused else old(center.newestUnused)))
    {
      hide Good, BatchBytes, ApplyAll, PutAll, HeldCount, Leads, SmallWrites, WithRoom, MidRun, Next,
           DbLocal.Configured, Inserts, Limited, AlwaysLimited, MadeRoom;
      ghost var start, hint := Value(), forceGCHint;
      GoodParts(cfg, start, plain, files);
      MidStart(cfg, opt, start, hint, plain, files);
      var seqNo := center.GetNextUnused(|batch|);
      ghost var room, s;
      done, room, s := RetryLoop(batch, rounds, junk, start, hint);
      MidGood(cfg, opt, start, hint, forceGCHint - hint, room, s, plain, files);
      steps := if done then room + [DoWrite(batch)] else room;
      if done {
        MidWrite(cfg, opt, start, hint, forceGCHint - hint, room, s, batch, plain, files);
        plain := ApplyAll(plain, batch);
      }
      assert InsertedBy(cfg, opt, start, hint, forceGCHint - hint, batch, done, steps,
                        ValueAt(if done then center.newestUnused else start.nextSeq), room, s);
    }

    // The loop: the batch is tried, and tried again behind every flush.
    method RetryLoop(batch: seq<Write>, rounds: nat, junk: Junks, ghost start: State, ghost hint: nat)
      returns (done: bool, ghost room: seq<Step>, ghost s: State)
      requires start == ValueAt(start.nextSeq) && Configured() && mem.bound == opt.memBound && hint == forceGCHint
      requires MidRun(cfg, opt, start, hint, 0, [], start, plain, files)
      requires Limited(opt, start) && (rounds <= 1 || AlwaysLimited(opt, 1.0))
      requires center.newestUnused == start.nextSeq + |batch| < 0x1_0000_0000
      modifies this, mem
      ensures plain == old(plain) && snaps == old(snaps) && (mem == old(mem) || fresh(mem)) && mem.bound == opt.memBound
      ensures forceGCHint >= hint && MidRun(cfg, opt, start, hint, forceGCHint - hint, room, s, plain, files)
      ensures s.nextSeq == start.nextSeq
      ensures done <==>
                start.memBytes + BatchBytes(batch) <= opt.memBound || (rounds > 0 && BatchBytes(batch) <= opt.memBound)
      ensures done ==> s.memBytes + BatchBytes(batch) <= opt.memBound
      ensures ValueAt(if done then s.nextSeq + |batch| else s.nextSeq) == if done then PutAll(s, batch) else s
      ensures done ==>
                (room == [] <==> start.memBytes + BatchBytes(batch) <= opt.memBound) && (room == [] ==> s == start)
      ensures forceGCHint == old(forceGCHint) + (if start.memBytes + BatchBytes(batch) <= opt.memBound then 0
                                                 else if BatchBytes(batch) <= opt.memBound && rounds > 0 then 1
                                                 else rounds)
    {
      hide Good, BatchBytes, PutAll, HeldCount, Leads, WithRoom, MidRun, DbLocal.Configured, Limited, AlwaysLimited;
      room, s := [], start;
      done := TryInsert(batch, center.newestUnused - |batch|, start);
      ghost var fits := done;
      var left := rounds;
      while !done && left > 0
        invariant 0 <= left <= rounds && plain == old(plain) && snaps == old(snaps)
        invariant center.newestUnused == start.nextSeq + |batch|
        invariant (mem == old(mem) || fresh(mem)) && mem.bound == opt.memBound
        invariant forceGCHint == old(forceGCHint) + (rounds - left)
        invariant s.nextSeq == start.nextSeq && MidRun(cfg, opt, start, hint, rounds - left, room, s, plain, files)
        invariant ValueAt(if done then s.nextSeq + |batch| else s.nextSeq) == if done then PutAll(s, batch) else s
        invariant left == rounds ==> room == [] && s == start && (done <==> fits)
        invariant left < rounds ==>
                    room != [] && !fits && s.memBytes == 0 && (done <==> BatchBytes(batch) <= opt.memBound)
        invariant left < rounds - 1 ==> BatchBytes(batch) > opt.memBound
        decreases left
      {
        if left < rounds {
          MidLimited(cfg, opt, start, hint, rounds - left, room, s, plain, files);
        }
        done, room, s := Retry(batch, junk, start, hint, rounds - left, room, s);
        left := left - 1;
      }
    }

    // One turn of the loop: room is made, and the batch is tried again.
    method Retry(batch: seq<Write>, junk: Junks, ghost start: State, ghost hint: nat, ghost n: nat,
                 ghost room: seq<Step>, ghost s: State)
      returns (done: bool, ghost room': seq<Step>, ghost s': State)
      requires s == ValueAt(s.nextSeq) && Configured() && mem.bound == opt.memBound
      requires MidRun(cfg, opt, start, hint, n, room, s, plain, files) && forceGCHint == hint + n && Limited(opt, s)
      requires center.newestUnused == s.nextSeq + |batch| < 0x1_0000_0000
      modifies this, mem
      ensures plain == old(plain) && snaps == old(snaps) && fresh(mem) && mem.bound == opt.memBound
      ensures forceGCHint == old(forceGCHint) + 1
      ensures MidRun(cfg, opt, start, hint, n + 1, room', s', plain, files) && room' != [] && s'.nextSeq == s.nextSeq
      ensures s'.memBytes == 0
      ensures done <==> BatchBytes(batch) <= opt.memBound
      ensures ValueAt(if done then s.nextSeq + |batch| else s.nextSeq) == if done then PutAll(s', batch) else s'
    {
      hide Good, BatchBytes, PutAll, HeldCount, Leads, MakesRoom, WithRoom, MidRun, DbLocal.Configured, Limited, Due;
      MidGood(cfg, opt, start, hint, n, room, s, plain, files);
      ghost var before := files;
      ghost var more;
      more, s' := MakeRoom(junk, s);
      MidRoom(cfg, opt, start, hint, n, room, s, more, s', plain, before, files);
      room' := room + more;
      done := TryInsert(batch, center.newestUnused - |batch|, s');
    }

    // The memtable takes the numbered batch, or nothing of it.
    method TryInsert(batch: seq<Write>, seqNo: Word, ghost s: State) returns (done: bool)
      requires s == ValueAt(seqNo) && seqNo + |batch| < 0x1_0000_0000
      modifies mem
      ensures done <==> s.memBytes + BatchBytes(batch) <= mem.bound
      ensures ValueAt(if done then seqNo + |batch| else seqNo) == if done then PutAll(s, batch) else s
    {
      hide Numbered, InsertAll, SerializedSize, BatchBytes, PutAll;
      PutAllNumbered(s, batch);
      done := mem.Insert(Numbered(batch, seqNo));
    }

    // db_local::insert. The batch must fit an empty memtable, or the loop would never end.
    method Insert(batch: seq<Write>, junk: Junks) returns (ghost steps: seq<Step>)
      requires Valid() && RoomFor(batch) && BatchBytes(batch) <= opt.memBound
      modifies this, mem, center
      ensures Valid() && plain == ApplyAll(old(plain), batch) && old(versions) != [] && versions != []
      ensures center.newestUnused == old(center.newestUnused) + |batch| && snaps == old(snaps)
      ensures mem == old(mem) || fresh(mem)
      ensures HeldCount(Value()) <= old(HeldCount(Value())) + |batch|
      ensures Leads(cfg, opt, old(Value()), steps, Value()) && Inserts(steps, batch) && |steps| >= 1
      ensures |steps| == 1 <==> old(mem.sizeBytes) + BatchBytes(batch) <= opt.memBound
      ensures |steps| == 1 ==> Value() == PutAll(old(Value()), batch)
      ensures forceGCHint == old(forceGCHint) + (if |steps| == 1 then 0 else 1)
      ensures Inserted(cfg, opt, old(Value()), old(forceGCHint), batch, steps, Value())
    {
      hide Good, Policy, BatchBytes, ApplyAll, PutAll, Roomy, AlwaysTwo, HeldCount, Leads, SmallWrites, Inserts,
           InsertRan, Inserted, Limited, AlwaysLimited;
      var done;
      ghost var s, hint := Value(), forceGCHint;
      done, steps := InsertWithin(batch, 1, junk);
      InsertedOnce(cfg, opt, s, hint, forceGCHint - hint, batch, steps, Value());
    }
  }

  /* --------------------------------------------------------------------- what reads answer */

  ghost predicate StoreAnswers(s: State, user: Data, r: Option<Data>) {
    && s.versions != [] && Readable(s.disk, Current(s)) && 1 <= s.nextSeq <= 0x1_0000_0000
    && r == Store.Get(s, user)
  }

  ghost predicate SnapAnswers(s: State, snap: Snapshot, user: Data, r: Option<Data>) {
    Readable(s.disk, VersionFiles(s.versions, snap.version)) && r == SnapGet(s, snap, user)
  }

  lemma GoodAnswers(cfg: TableConfig, s: State, plain: map<Data, Data>, files: map<FileId, DiskFile>, hash: Hash,
                    user: Data, junk: Junks)
    requires Good(cfg, s, plain, files) && cfg.filter == Policy(Params(hash, 64)) && ValidUser(user)
    ensures s.versions != [] && Readable(s.disk, Current(s)) && 1 <= s.nextSeq <= 0x1_0000_0000
    ensures forall f | f in Current(s) :: f in BytesOf(files)
    ensures StoreAnswers(s, user, AnswerValue(GetBytes(cfg, s, BytesOf(files), user, junk)))
    ensures !Stale(s, user) ==>
              AnswerValue(GetBytes(cfg, s, BytesOf(files), user, junk)) == if user in plain then Some(plain[user])
              else None
  {
    hide Sound, Agrees, Bounded, GetBytes, FilesStored, Policy, Readable, Lookup, StoredAs, Stale;
    GoodStored(cfg, s, plain, files, hash);
    GoodCurrent(cfg, s, plain, files);
    SoundDisk(cfg, s);
    GetBytesAnswer(cfg, s, BytesOf(files), user, junk);
    if !Stale(s, user) {
      GetAgrees(cfg, s, plain, user);
    }
  }

  // The list's files are there, and their bytes answer as their entries do.
  ghost predicate ListReads(cfg: TableConfig, s: State, files: map<FileId, DiskFile>, list: seq<FileId>, q: SeqNo,
                            user: Data, junk: Junks) {
    && Readable(s.disk, list)
    && (forall f | f in list :: f in s.disk && f in files && files[f].level == s.disk[f].level)
    && SstBytes(cfg, s, BytesOf(files), list, user, q, 0, Levels(s.disk, list), junk)
       == AsAnswer(SstGet(s.disk, list, user, q, 0, Levels(s.disk, list)))
  }

  lemma SnapBytes(cfg: TableConfig, s: State, plain: map<Data, Data>, files: map<FileId, DiskFile>, hash: Hash,
                  list: seq<FileId>, k: nat, user: Data, junk: Junks)
    requires Good(cfg, s, plain, files) && cfg.filter == Policy(Params(hash, 64)) && ValidUser(user) && k in s.snaps
    requires list == VersionFiles(s.versions, s.snaps[k].version)
    ensures ListReads(cfg, s, files, list, s.snaps[k].seqNo, user, junk)
  {
    hide Agrees, Bounded, SstBytes, SstGet, Policy, Levels, StoredAs, TableOf, Sound, VersionFiles, AllVisible,
         HasVersion;
    GoodStored(cfg, s, plain, files, hash);
    SnapReadable(cfg, s, k);
    SoundDisk(cfg, s);
    SstBytesAnswer(cfg, s, BytesOf(files), list, user, s.snaps[k].seqNo, 0, Levels(s.disk, list), junk);
  }

  // Snapshot k of a later state answers as the plain map, except for keys that already read stale before.
  ghost predicate AnswersPlain(s: State, s': State, k: nat, plain: map<Data, Data>) {
    && s.versions != [] && k in s'.snaps
    && forall user | !Stale(s, user) ::
         SnapAnswers(s', s'.snaps[k], user, if user in plain then Some(plain[user]) else None)
  }

  lemma TakenAnswers(cfg: TableConfig, s: State, plain: map<Data, Data>, k: nat)
    requires Sound(cfg, s) && s.versions != [] && Agrees(s, plain) && 1 <= s.nextSeq <= 0x1_0000_0000
    ensures AnswersPlain(s, Store.TakeSnapshot(s, k), k, plain)
  {
    hide Sound, Agrees, Readable, SnapGet, VersionFiles, Stale, Store.Get;
    forall user | !Stale(s, user)
      ensures SnapAnswers(Store.TakeSnapshot(s, k), Store.TakeSnapshot(s, k).snaps[k], user,
                if user in plain then Some(plain[user]) else None)
    {
      GetAgrees(cfg, s, plain, user);
      TakenReads(cfg, s, k, plain, user);
    }
  }

  /* --------------------------------------------------------------------- initially */

  lemma SharesSupply(opt: Options)
    requires forall l | 0 <= l < |opt.allowed| :: opt.allowed[l] != 1
    ensures forall l :: AlwaysTwo(opt, l, 1.0)
  {
    hide AlwaysTwo;
    forall l: nat ensures AlwaysTwo(opt, l, 1.0) {
      FullRatioSelectsTwo(opt, l);
    }
  }

  lemma InitGood(cfg: TableConfig)
    requires cfg.block.interval > 4
    ensures Good(cfg, Init(), map[], map[])
  {
    hide Sound, Agrees, Bounded;
    InitHolds(cfg);
    InvSound(cfg, Init());
    InitAgrees();
    InitBounded();
  }

  /* ----------------------------------------------------------------- writing tables */

  lemma WrittenTables(cfg: TableConfig, bytes: seq<Data>, tables: Tables)
    requires Written(cfg, bytes, tables)
    ensures |bytes| == |tables|
    ensures forall t | 0 <= t < |tables| :: WellFormed(cfg, tables[t]) && bytes[t] == TableOf(cfg, tables[t])
  {}

  lemma MemFits(cfg: TableConfig, s: State)
    requires Roomy(cfg) && Sound(cfg, s) && Bounded(s)
    ensures KeySorted(s.mem) && RunsFit(cfg, s.mem)
  {
    hide Roomy, Bounded, RunsFit, KeySorted, DiskOk, SnapsOk, VersionsOk, MemOverAll, Contents;
    BoundedVersion(s);
    BoundedFits(cfg, s, s.mem);
  }

  lemma BoundedVersion(s: State)
    requires Bounded(s)
    ensures s.versions != []
  {}

  // A flush adds no file to a level above 0.
  lemma StillLimited(cfg: TableConfig, opt: Options, s: State, tables: Tables, s': State)
    requires Sound(cfg, s) && Limited(opt, s) && Flushed(cfg, opt, s, tables, s') && FileSize(opt, 1) != 0
    ensures forall l: nat | l <= opt.maxLevel && Needs(opt, s', l, 1.0) :: FileSize(opt, l + 1) != 0
  {
    hide Sound, FlushStep, LevelSet, FileSize, Divided, NeedCompaction;
    FlushLevels(cfg, s, tables, s');
    forall l: nat | l <= opt.maxLevel && Needs(opt, s', l, 1.0) ensures FileSize(opt, l + 1) != 0 {
      assert l > 0 ==> Needs(opt, s, l, 1.0);
    }
  }

  lemma CompactedAt(cfg: TableConfig, opt: Options, s: State, l: nat, ratio: real, step: Step, s': State)
    requires CompactedBy(cfg, opt, s, l, ratio, step, s')
    ensures step.DoCompact? && step.level == l
  {}

  lemma FlushIs(cfg: TableConfig, s: State, tables: Tables)
    requires s.versions != []
    ensures s.mem == [] ==> FlushStep(cfg, s, tables, s.(mem := [], memBytes := 0))
    ensures (s.mem != [] && (forall t | 0 <= t < |tables| :: WellFormed(cfg, tables[t])) && AllEntries(tables) == s.mem
             ==> FlushStep(cfg, s, tables, Install(s.(mem := [], memBytes := 0), 0, tables, [])))
  {
    hide WellFormed, AllEntries, Install;
    if s.mem != [] && (forall t | 0 <= t < |tables| :: WellFormed(cfg, tables[t])) && AllEntries(tables) == s.mem {
      EmptyLater(s, tables);
    }
  }

  // Emptying the memtable before or after the installation is the same.
  lemma EmptyLater(s: State, tables: Tables)
    requires s.versions != []
    ensures Install(s.(mem := [], memBytes := 0), 0, tables, []) == Install(s, 0, tables, []).(mem := [], memBytes := 0)
  {
    hide G.WithDelta;
  }

  lemma FlushedGood(cfg: TableConfig, s: State, tables: Tables, s': State, plain: map<Data, Data>)
    requires Sound(cfg, s) && s.versions != [] && Agrees(s, plain) && Bounded(s) && FlushStep(cfg, s, tables, s')
    ensures Sound(cfg, s') && s'.versions != [] && Agrees(s', plain) && Bounded(s') && HeldCount(s') <= HeldCount(s)
  {
    hide Sound, Inv, Agrees, Bounded, FlushStep, Holds, HeldCount;
    FlushKeeps(cfg, s, tables, s');
    FlushAgrees(cfg, s, tables, s', plain);
    FlushHolds(cfg, s, tables, s');
    BoundedSubset(s, s');
  }

  /* --------------------------------------------------------------------- compaction */

  lemma SameMultiset(list: seq<FileId>, sorted: seq<FileId>)
    requires G.NoDuplicates(list) && multiset(sorted) == multiset(list)
    ensures G.NoDuplicates(sorted)
  {
    G.Counting(list);
    G.Counting(sorted);
    forall r ensures multiset(sorted)[r] <= 1 {
      assert multiset(list)[r] <= 1;
    }
  }

  lemma NotBefore(list: seq<FileId>, k: nat, some: seq<FileId>)
    requires G.NoDuplicates(list) && k < |list| && G.NoDuplicates(some) && forall f | f in some :: f in list[..k]
    ensures G.NoDuplicates(some + [list[k]])
  {
    forall f | f in some ensures f != list[k] {
      var i :| 0 <= i < k && list[..k][i] == f;
    }
    var all := some + [list[k]];
    forall i, j | 0 <= i < j < |all| ensures all[i] != all[j] {
      assert all[i] == some[i] && some[i] in some;
    }
  }

  // The readers' test of two files is the overlap of what they hold.
  lemma OverlapTest(cfg: TableConfig, s: State, plain: map<Data, Data>, files: map<FileId, DiskFile>, f: FileId,
                    g: FileId)
    requires Good(cfg, s, plain, files) && f in Current(s) && g in Current(s) && f in s.disk && g in s.disk
    ensures var a, b := MetaOf(cfg, Contents(s.disk[f])), MetaOf(cfg, Contents(s.disk[g]));
            && KeyWithoutSeq(a.first).Some? && KeyWithoutSeq(a.last).Some? && KeyWithoutSeq(b.first).Some?
            && KeyWithoutSeq(b.last).Some?
            && (Disjoint(a, b) <==> !Overlap(Contents(s.disk[f]), Contents(s.disk[g])))
  {
    hide Good, Contents, Disjoint, UserLess, FirstUk, LastUk, FilterOf, KeyWithoutSeq, KeySorted, ValidEntries, Occurs;
    FileEntries(cfg, s, plain, files, f);
    FileEntries(cfg, s, plain, files, g);
    var a, b := Contents(s.disk[f]), Contents(s.disk[g]);
    DisjointMeans(a, b, FilterOf(cfg.filter, a), FilterOf(cfg.filter, b));
  }

  lemma FileEntries(cfg: TableConfig, s: State, plain: map<Data, Data>, files: map<FileId, DiskFile>, f: FileId)
    requires Good(cfg, s, plain, files) && f in Current(s) && f in s.disk
    ensures var es := Contents(s.disk[f]); es != [] && KeySorted(es) && ValidEntries(es)
  {
    hide Agrees, FilesStored, Contents, KeySorted, SnapsOk, MemOk, MemOverAll, VersionsOk, WellFormed, ValidEntry,
         EntrySize, HeldCount;
    var es := Contents(s.disk[f]);
    assert GoodFile(cfg, s.disk[f], s.nextSeq, s.clock);
    FileSorted(cfg, s.disk[f]);
    forall i | 0 <= i < |es| ensures ValidEntry(es[i]) {
      assert Holds(s, es[i]);
    }
  }

  lemma AscendingTimes(cfg: TableConfig, s: State, plain: map<Data, Data>, files: map<FileId, DiskFile>,
                       list: seq<FileId>)
    requires Good(cfg, s, plain, files) && Ranked(Times(files), list) && forall f | f in list :: f in s.disk
    ensures OldestFirst(s.disk, list)
  {
    hide Sound, Agrees, Bounded, TableOf;
    forall i, j | 0 <= i < j < |list| ensures s.disk[list[i]].time < s.disk[list[j]].time {
      assert list[i] in list && list[j] in list;
    }
  }

  // What the policy selects can be merged.
  lemma SelectedMerges(cfg: TableConfig, s: State, plain: map<Data, Data>, files: map<FileId, DiskFile>, l: nat,
                       byTime: seq<FileId>, pulled: seq<FileId>, ratio: real)
    requires Good(cfg, s, plain, files) && s.versions != [] && byTime != [] && Chosen(s, l, byTime, pulled)
    requires 0.0 < ratio <= 1.0
    ensures var sel := Selected(byTime, pulled, ratio);
            (forall f | f in sel :: f in s.disk && f in Current(s)) && MergeableTables(Backwards(s, sel))
  {
    hide Good, Selected, MergeableTables, Backwards, Chosen, Sound;
    GoodParts(cfg, s, plain, files);
    var sel := Selected(byTime, pulled, ratio);
    forall f | f in sel ensures f in Current(s) && f in s.disk {
      SelectedCurrent(s, l, byTime, pulled, ratio, f);
    }
    SelectedDistinct(s, l, byTime, pulled, ratio);
    FilesCanMerge(cfg, s, sel);
  }

  lemma SelectedDistinct(s: State, l: nat, byTime: seq<FileId>, pulled: seq<FileId>, ratio: real)
    requires byTime != [] && Chosen(s, l, byTime, pulled) && 0.0 < ratio <= 1.0
    ensures G.NoDuplicates(Selected(byTime, pulled, ratio))
  {
    hide Kept, Overlap, Contents;
    var older := byTime[..|byTime| - 1];
    var all := older + pulled;
    forall i, j | 0 <= i < j < |all| ensures all[i] != all[j] {
      if j < |older| {
        assert byTime[i] in byTime && byTime[j] in byTime;
        assert s.disk[byTime[i]].time < s.disk[byTime[j]].time;
      } else if i < |older| {
        assert byTime[i] in byTime && pulled[j - |older|] in pulled;
      }
    }
  }

  ghost predicate Merges(s: State, sel: seq<FileId>) {
    && s.versions != [] && |sel| >= 2 && (forall f | f in sel :: f in s.disk && f in Current(s))
    && MergeableTables(Backwards(s, sel))
  }

  ghost predicate MergeFits(cfg: TableConfig, s: State, sel: seq<FileId>) {
    && Merges(s, sel)
    && var merged := DevideAndConquerMerge(Backwards(s, sel));
    && merged != [] && Descending(merged) && RunsFit(cfg, Reverse(merged))
  }

  // The merged entries are stored entries, so writing them out fits.
  lemma MergedFits(cfg: TableConfig, s: State, plain: map<Data, Data>, files: map<FileId, DiskFile>, sel: seq<FileId>)
    requires Roomy(cfg) && Good(cfg, s, plain, files) && Merges(s, sel)
    ensures MergeFits(cfg, s, sel)
  {
    hide Roomy, Good, RunsFit, Contents, KeySorted, MergeableTables, DevideAndConquerMerge, Bounded, Sound, Descending,
         Backwards;
    var merged := DevideAndConquerMerge(Backwards(s, sel));
    GoodParts(cfg, s, plain, files);
    MergedSorted(Backwards(s, sel));
    forall e | e in Reverse(merged) ensures Holds(s, e) {
      MergedHeld(s, sel, e);
    }
    BoundedFits(cfg, s, Reverse(merged));
    MergedNotEmpty(cfg, s, plain, files, sel);
  }

  lemma MergedHeld(s: State, sel: seq<FileId>, e: Entry)
    requires Merges(s, sel) && e in Reverse(DevideAndConquerMerge(Backwards(s, sel)))
    ensures Holds(s, e)
  {
    hide MergeableTables, DevideAndConquerMerge, Contents, Covered;
    var lists := Backwards(s, sel);
    var merged := DevideAndConquerMerge(lists);
    ReverseReverses(merged);
    MergeTablesNewest(lists);
    FlatHolds(lists, e);
    var i :| 0 <= i < |lists| && e in lists[i];
    ReverseReverses(Contents(s.disk[sel[i]]));
  }

  lemma MergedNotEmpty(cfg: TableConfig, s: State, plain: map<Data, Data>, files: map<FileId, DiskFile>,
                       sel: seq<FileId>)
    requires Merges(s, sel) && Good(cfg, s, plain, files)
    ensures DevideAndConquerMerge(Backwards(s, sel)) != [] && Descending(DevideAndConquerMerge(Backwards(s, sel)))
  {
    hide Good, Contents, MergeableTables, DevideAndConquerMerge, Keeps, Backwards, KeySorted, Descending;
    FileEntries(cfg, s, plain, files, sel[0]);
    var e := Contents(s.disk[sel[0]])[0];
    SelectedEntry(s, sel, sel[0], e);
    MergeTablesNewest(Backwards(s, sel));
    var k := CoveringVersion(DevideAndConquerMerge(Backwards(s, sel)), Backwards(s, sel), e);
  }

  lemma MergeWrittenIs(cfg: TableConfig, s: State, sel: seq<FileId>, tables: Tables)
    requires s.versions != [] && |sel| >= 2 && (forall f | f in sel :: f in s.disk && f in Current(s))
    requires MergeableTables(Backwards(s, sel))
    requires AllEntries(tables) == Reverse(DevideAndConquerMerge(Backwards(s, sel)))
    requires forall t | 0 <= t < |tables| :: WellFormed(cfg, tables[t])
    ensures Compacts(cfg, s, sel, tables)
  {
    hide MergeableTables, DevideAndConquerMerge, WellFormed, AllEntries;
  }

  lemma NeedsTwo(opt: Options, l: nat, n: nat, ratio: real)
    requires ratio >= 0.0 && NeedCompaction(opt, l, n, ratio)
    ensures n >= 2
  {
    hide Share;
  }

  lemma CompactedGood(cfg: TableConfig, opt: Options, s: State, l: nat, ratio: real, byTime: seq<FileId>,
                      pulled: seq<FileId>, tables: Tables,
                      plain: map<Data, Data>)
    requires Sound(cfg, s) && s.versions != [] && Agrees(s, plain) && Bounded(s) && l <= opt.maxLevel && byTime != []
    requires 0.0 < ratio <= 1.0
    requires Chosen(s, l, byTime, pulled) && NeedCompaction(opt, l, |byTime|, ratio)
    requires Compacts(cfg, s, Selected(byTime, pulled, ratio), tables)
    ensures var s' := Install(s, l + 1, tables, Selected(byTime, pulled, ratio));
            && Sound(cfg, s') && s'.versions != [] && Agrees(s', plain) && Bounded(s') && HeldCount(s') <= HeldCount(s)
            && CompactStep(cfg, opt, s, l, ratio, byTime, pulled, tables, s')
  {
    hide Sound, Agrees, Bounded, Holds, Install, Selected, Chosen, NeedCompaction, HeldCount, MergeWritten, Backwards,
         IsTop, Superseded;
    var sel := Selected(byTime, pulled, ratio);
    CompactSound(cfg, s, l + 1, sel, tables);
    CompactTops(cfg, s, l + 1, sel, tables);
    SameTopsAgree(s, Install(s, l + 1, tables, sel), plain);
    BoundedSubset(s, Install(s, l + 1, tables, sel));
  }

  /* -------------------------------------------------------------------- collection */

  lemma LiveNext(s: State, versions: seq<VersionRec>)
    requires versions != []
    ensures LiveVersions(s, versions) == (if |versions| == 1 || Pinned(s, versions[0].id) then [versions[0]] else []) +
              LiveVersions(s, versions[1..])
  {}

  lemma NoneLive(s: State)
    ensures LiveVersions(s, []) == []
  {}

  // The files that some version still lists.
  function Listed<T>(files: map<FileId, T>, versions: seq<VersionRec>): map<FileId, T> {
    map f | f in files && (exists i | 0 <= i < |versions| :: f in versions[i].files) :: files[f]
  }

  lemma ListedStored(cfg: TableConfig, files: map<FileId, DiskFile>, disk: map<FileId, FileRec>,
                     versions: seq<VersionRec>)
    requires FilesStored(cfg, files, disk)
    ensures FilesStored(cfg, Listed(files, versions), Listed(disk, versions))
  {
    hide TableOf;
  }

  lemma CollectIs(s: State)
    ensures CollectGarbage(s) == s.(versions := LiveVersions(s, s.versions),
              disk := Listed(s.disk, LiveVersions(s, s.versions)))
  {
    hide LiveVersions;
  }

  lemma CollectedGood(cfg: TableConfig, s: State, plain: map<Data, Data>, files: map<FileId, DiskFile>,
                      kept: seq<VersionRec>)
    requires Good(cfg, s, plain, files) && s.versions != [] && kept == LiveVersions(s, s.versions)
    ensures CollectGarbage(s) == s.(versions := kept, disk := Listed(s.disk, kept))
    ensures Good(cfg, CollectGarbage(s), plain, Listed(files, kept))
    ensures CollectGarbage(s).versions != [] && HeldCount(CollectGarbage(s)) <= HeldCount(s)
  {
    hide Sound, Inv, Agrees, Bounded, FilesStored, LiveVersions, Holds, CollectGarbage, Listed, HeldCount;
    CollectIs(s);
    ListedStored(cfg, files, s.disk, kept);
    CollectKeeps(cfg, s);
    CollectAgrees(cfg, s, plain);
    CollectHolds(cfg, s);
    BoundedSubset(s, CollectGarbage(s));
  }

  lemma TakenGood(cfg: TableConfig, s: State, plain: map<Data, Data>, files: map<FileId, DiskFile>, k: nat)
    requires Good(cfg, s, plain, files) && s.versions != []
    ensures 1 <= s.nextSeq <= 0x1_0000_0000 && Good(cfg, Store.TakeSnapshot(s, k), plain, files)
    ensures HeldCount(Store.TakeSnapshot(s, k)) == HeldCount(s)
  {
    hide Sound, Inv, Agrees, Bounded, FilesStored, HeldCount, Holds;
    GoodCurrent(cfg, s, plain, files);
    SnapshotKeeps(cfg, s, k);
    SnapAgrees(s, Store.TakeSnapshot(s, k), plain);
    SnapsBounded(s, Store.TakeSnapshot(s, k));
  }

  lemma SnapsBounded(s: State, s': State)
    requires s.versions != [] && s' == s.(snaps := s'.snaps)
    ensures HeldCount(s') == HeldCount(s) && (Bounded(s) ==> Bounded(s'))
  {
    hide Contents, Small;
    assert HeldSet(s') == HeldSet(s);
    forall e ensures Holds(s', e) <==> Holds(s, e) {}
  }

  lemma DroppedGood(cfg: TableConfig, s: State, plain: map<Data, Data>, files: map<FileId, DiskFile>, k: nat)
    requires Good(cfg, s, plain, files) && s.versions != []
    ensures Good(cfg, Store.DropSnapshot(s, k), plain, files) && HeldCount(Store.DropSnapshot(s, k)) == HeldCount(s)
  {
    hide Sound, Inv, Agrees, Bounded, FilesStored, HeldCount, Holds;
    DropKeeps(cfg, s, k);
    SnapAgrees(s, Store.DropSnapshot(s, k), plain);
    SnapsBounded(s, Store.DropSnapshot(s, k));
  }

  /* ------------------------------------------------------------------------ writing */

  // Midway through an insertion: room was made n times, and the batch is not written yet.
  ghost predicate MidRun(cfg: TableConfig, opt: Options, start: State, hint: nat, n: nat, room: seq<Step>, s: State,
                         plain: map<Data, Data>, files: map<FileId, DiskFile>)
  {
    && Good(cfg, s, plain, files) && start.versions != [] && s.versions != [] && HeldCount(s) <= HeldCount(start)
    && Leads(cfg, opt, start, room, s) && (room == [] || WithRoom(room)) && MadeRoom(cfg, opt, start, hint, n, room, s)
  }

  lemma MidStart(cfg: TableConfig, opt: Options, s: State, hint: nat, plain: map<Data, Data>,
                 files: map<FileId, DiskFile>)
    requires Good(cfg, s, plain, files) && s.versions != []
    ensures MidRun(cfg, opt, s, hint, 0, [], s, plain, files)
  {
    hide Good, Leads;
    LeadsNowhere(cfg, opt, s);
  }

  lemma MidGood(cfg: TableConfig, opt: Options, start: State, hint: nat, n: nat, room: seq<Step>, s: State,
                plain: map<Data, Data>, files: map<FileId, DiskFile>)
    requires MidRun(cfg, opt, start, hint, n, room, s, plain, files)
    ensures Good(cfg, s, plain, files) && start.versions != [] && s.versions != [] && HeldCount(s) <= HeldCount(start)
    ensures MadeRoom(cfg, opt, start, hint, n, room, s)
  {
    hide Good, Leads, WithRoom, MadeRoom;
  }

  lemma MidLimited(cfg: TableConfig, opt: Options, start: State, hint: nat, n: nat, room: seq<Step>, s: State,
                   plain: map<Data, Data>, files: map<FileId, DiskFile>)
    requires MidRun(cfg, opt, start, hint, n, room, s, plain, files) && AlwaysLimited(opt, 1.0)
    ensures Limited(opt, s)
  {
    hide Good, Leads, WithRoom, MadeRoom, Limited, AlwaysLimited;
    AlwaysIsNow(opt, s);
  }

  lemma MidRoom(cfg: TableConfig, opt: Options, start: State, hint: nat, n: nat, room: seq<Step>, s: State,
                more: seq<Step>, s': State, plain: map<Data, Data>, before: map<FileId, DiskFile>,
                files: map<FileId, DiskFile>)
    requires MidRun(cfg, opt, start, hint, n, room, s, plain, before)
    requires Good(cfg, s', plain, files) && s.versions != [] && s'.versions != [] && HeldCount(s') <= HeldCount(s)
    requires MakesRoom(cfg, opt, s, Due(opt, hint + n), more, s')
    ensures MidRun(cfg, opt, start, hint, n + 1, room + more, s', plain, files) && room + more != []
  {
    hide Good, Leads, MakesRoom, Due;
    RoomLeads(cfg, opt, s, Due(opt, hint + n), more, s');
    LeadsJoin(cfg, opt, start, room, s, more, s');
    RoomGrows(room, more);
    assert RoomAgain(cfg, opt, start, hint, n + 1, room + more, s', room, s, more);
  }

  lemma MidWrite(cfg: TableConfig, opt: Options, start: State, hint: nat, n: nat, room: seq<Step>, s: State,
                 batch: seq<Write>, plain: map<Data, Data>, files: map<FileId, DiskFile>)
    requires MidRun(cfg, opt, start, hint, n, room, s, plain, files) && start.versions != []
    requires s.nextSeq + |batch| <= 0x1_0000_0000
    requires SmallWrites(batch) && HeldCount(start) + |batch| <= MAX_HELD
    requires s.memBytes + BatchBytes(batch) <= opt.memBound
    ensures Good(cfg, PutAll(s, batch), ApplyAll(plain, batch), files) && PutAll(s, batch).versions != []
    ensures HeldCount(PutAll(s, batch)) <= HeldCount(start) + |batch|
    ensures var steps := room + [DoWrite(batch)];
            Leads(cfg, opt, start, steps, PutAll(s, batch)) && Inserts(steps, batch) && (|steps| == 1 <==> room == [])
  {
    hide Good, Leads, WithRoom, SmallWrites, PutAll, ApplyAll, HeldCount, Next, BatchBytes, Inserts, MadeRoom;
    WrittenGood(cfg, opt, s, plain, files, batch);
    LeadsOn(cfg, opt, start, room, s, DoWrite(batch), PutAll(s, batch));
    InsertsAfter(room, batch);
  }

  lemma WrittenGood(cfg: TableConfig, opt: Options, s: State, plain: map<Data, Data>, files: map<FileId, DiskFile>,
                    batch: seq<Write>)
    requires Good(cfg, s, plain, files) && s.versions != [] && s.nextSeq + |batch| <= 0x1_0000_0000
    requires SmallWrites(batch)
    requires HeldCount(s) + |batch| <= MAX_HELD && s.memBytes + BatchBytes(batch) <= opt.memBound
    ensures Good(cfg, PutAll(s, batch), ApplyAll(plain, batch), files) && PutAll(s, batch).versions != []
    ensures HeldCount(PutAll(s, batch)) <= HeldCount(s) + |batch| && Next(cfg, opt, s, DoWrite(batch), PutAll(s, batch))
  {
    hide Sound, Inv, Agrees, FilesStored, InsertAll, Numbered, SerializedSize, ApplyAll, PutAll, GoodWrite, SmallWrites,
         HeldCount, Small, Holds, BatchBytes;
    SmallGood(batch);
    PutAllAgrees(cfg, s, batch, plain);
    PutAllNumbered(s, batch);
    PutAllBounded(s, batch);
  }
}
