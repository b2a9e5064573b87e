/** The database as a state machine (db/db_local.cc): memtable, files on disk, versions and
    snapshots, with the steps that change them and the read path. */
module Store {
  import opened Bytes
  import opened Keys
  import opened TableImages
  import opened TableLookup
  import opened TableReads
  import opened TableTheorems
  import opened TableWriting
  import G = Guarding

  type FileId = nat

  /* A table on disk: its level, its last write time, its blocks. */
  datatype FileRec = FileRec(level: nat, time: nat, parts: seq<seq<Entry>>)
  datatype VersionRec = VersionRec(id: nat, files: seq<FileId>)
  datatype Snapshot = Snapshot(seqNo: SeqNo, version: nat)

  /* memory_page_bytes, level_file_number, level_file_size, max_level */
  datatype Options = Options(memBound: nat, allowed: seq<nat>, sizes: seq<nat>, maxLevel: nat)

  datatype State = State(
    mem: seq<Entry>, memBytes: nat, nextSeq: nat,
    clock: nat, nextFile: FileId, nextVersion: nat,
    disk: map<FileId, FileRec>, versions: seq<VersionRec>, snaps: map<nat, Snapshot>)

  function Init(): State {
    State([], 0, 1, 0, 0, 1, map[], [VersionRec(0, [])], map[])
  }

  function Contents(r: FileRec): seq<Entry> {
    Flat(r.parts)
  }

  function Current(s: State): seq<FileId>
    requires s.versions != []
  {
    s.versions[|s.versions| - 1].files
  }

  /* -------------------------------------------------------------- read path */

  // find_last_less_equal on the memtable's ordered list.
  function FindLastLessEqual(list: seq<Entry>, key: SeqKey): Option<Entry> {
    if list == [] then None
    else if !KeyLess(key, list[|list| - 1].key) then Some(list[|list| - 1])
    else FindLastLessEqual(list[..|list| - 1], key)
  }

  // memtable::get
  function MemGet(mem: seq<Entry>, user: Data, q: SeqNo): Option<Entry> {
    match FindLastLessEqual(mem, SeqKey(q, user))
    case None => None
    case Some(e) => if e.key.user == user then Some(e) else None
  }

  predicate Readable(disk: map<FileId, FileRec>, files: seq<FileId>) {
    forall f | f in files :: f in disk && NonEmptyParts(disk[f].parts)
  }

  function LaterOf(a: Option<Entry>, b: Option<Entry>): Option<Entry> {
    if a.None? then b else if b.None? then a else if KeyLess(a.value.key, b.value.key) then b else a
  }

  // The answers of all tables of one level, of which the greatest key counts.
  function LevelAnswer(disk: map<FileId, FileRec>, files: seq<FileId>, l: nat, user: Data, q: SeqNo): Option<Entry>
    requires Readable(disk, files)
  {
    if files == [] then None
    else
      var rest := LevelAnswer(disk, files[1..], l, user, q);
      if disk[files[0]].level != l then rest
      else LaterOf(TableGet(disk[files[0]].parts, user, q), rest)
  }

  // find_from_ssts from level l on: the first level that answers wins.
  function SstGet(disk: map<FileId, FileRec>, files: seq<FileId>, user: Data, q: SeqNo, l: nat,
                  levels: nat): Option<Entry>
    requires Readable(disk, files)
    decreases levels - l
  {
    if levels <= l then None
    else
      match LevelAnswer(disk, files, l, user, q)
      case Some(e) => Some(e)
      case None => SstGet(disk, files, user, q, l + 1, levels)
  }

  function Levels(disk: map<FileId, FileRec>, files: seq<FileId>): (n: nat)
    requires Readable(disk, files)
    ensures forall f | f in files :: disk[f].level < n
  {
    if files == [] then 0
    else
      var n := Levels(disk, files[1..]);
      var m := disk[files[0]].level + 1;
      assert forall f | f in files :: f == files[0] || f in files[1..];
      if m < n then n else m
  }

  function Lookup(s: State, files: seq<FileId>, user: Data, q: SeqNo): Option<Entry>
    requires Readable(s.disk, files)
  {
    match MemGet(s.mem, user, q)
    case Some(e) => Some(e)
    case None => SstGet(s.disk, files, user, q, 0, Levels(s.disk, files))
  }

  function ValueIn(r: Option<Entry>): Option<Data> {
    if r.Some? && r.value.value.Put? then Some(r.value.value.data) else None
  }

  // db_local::get without a caller snapshot.
  function Get(s: State, user: Data): Option<Data>
    requires s.versions != [] && Readable(s.disk, Current(s)) && 1 <= s.nextSeq <= 0x1_0000_0000
  {
    ValueIn(Lookup(s, Current(s), user, s.nextSeq - 1))
  }

  predicate HasVersion(s: State, id: nat) {
    exists i | 0 <= i < |s.versions| :: s.versions[i].id == id
  }

  function VersionFiles(versions: seq<VersionRec>, id: nat): seq<FileId> {
    if versions == [] then []
    else if versions[0].id == id then versions[0].files
    else VersionFiles(versions[1..], id)
  }

  // With a valid snapshot: its sequence number and the files of the version it pins.
  function SnapLookup(s: State, snap: Snapshot, user: Data): Option<Entry>
    requires Readable(s.disk, VersionFiles(s.versions, snap.version))
  {
    Lookup(s, VersionFiles(s.versions, snap.version), user, snap.seqNo)
  }

  // db_local::get with a valid snapshot.
  function SnapGet(s: State, snap: Snapshot, user: Data): Option<Data>
    requires Readable(s.disk, VersionFiles(s.versions, snap.version))
  {
    ValueIn(SnapLookup(s, snap, user))
  }

  /* -------------------------------------------------------------------- steps */

  function InsertSorted(mem: seq<Entry>, e: Entry): seq<Entry> {
    if mem == [] then [e]
    else if KeyLess(mem[|mem| - 1].key, e.key) then mem + [e]
    else InsertSorted(mem[..|mem| - 1], e) + [mem[|mem| - 1]]
  }

  datatype Write = Write(user: Data, value: Value)

  // One entry of a batch: the next sequence number, inserted into the memtable.
  function PutOne(s: State, w: Write): State
    requires s.nextSeq < 0x1_0000_0000
  {
    var e := Entry(SeqKey(s.nextSeq, w.user), w.value);
    s.(mem := InsertSorted(s.mem, e), memBytes := s.memBytes + EntrySize(e), nextSeq := s.nextSeq + 1)
  }

  function PutAll(s: State, batch: seq<Write>): State
    requires s.nextSeq + |batch| <= 0x1_0000_0000
    decreases |batch|
  {
    if batch == [] then s else PutAll(PutOne(s, batch[0]), batch[1..])
  }

  function BatchBytes(batch: seq<Write>): nat {
    if batch == [] then 0 else EntrySize(Entry(SeqKey(0, batch[0].user), batch[0].value)) + BatchBytes(batch[1..])
  }

  // New tables get consecutive ids and ascending write times.
  function NewFiles(s: State, level: nat, tables: seq<seq<seq<Entry>>>): map<FileId, FileRec> {
    map f | f in NewIds(s, |tables|) :: FileRec(level, s.clock + (f - s.nextFile), tables[f - s.nextFile])
  }

  function NewIds(s: State, n: nat): seq<FileId> {
    seq(n, i => s.nextFile + i)
  }

  // The files as their guards stand for them: by level and id.
  function Reps(disk: map<FileId, FileRec>): map<G.Rep, G.File> {
    map f | f in disk :: G.File(disk[f].level, f)
  }

  // Writing tables and installing the delta: added files and the old ones that were not compacted.
  function Install(s: State, level: nat, tables: seq<seq<seq<Entry>>>, compacted: seq<FileId>): State
    requires s.versions != []
  {
    var disk := s.disk + NewFiles(s, level, tables);
    var files := G.WithDelta(Reps(disk), Current(s), NewIds(s, |tables|), compacted);
    s.(disk := disk, clock := s.clock + |tables|, nextFile := s.nextFile + |tables|,
       versions := s.versions + [VersionRec(s.nextVersion, files)], nextVersion := s.nextVersion + 1)
  }

  // memtable_flusher::flush_to_disk on the swapped out memtable; an empty one leaves everything alone.
  ghost predicate FlushStep(cfg: TableConfig, s: State, tables: seq<seq<seq<Entry>>>, s': State) {
    && s.versions != []
    && if s.mem == [] then s' == s.(memBytes := 0)
       else
         && (forall t | 0 <= t < |tables| :: WellFormed(cfg, tables[t]))
         && AllEntries(tables) == s.mem
         && s' == Install(s, 0, tables, []).(mem := [], memBytes := 0)
  }

  /* ---- compaction */

  predicate OldestFirst(disk: map<FileId, FileRec>, files: seq<FileId>)
    requires forall f | f in files :: f in disk
  {
    forall i, j | 0 <= i < j < |files| :: disk[files[i]].time < disk[files[j]].time
  }

  // allowed_level_file_size: the limit of a table written to this level, zero for none.
  function FileSize(opt: Options, l: nat): nat {
    if l < |opt.sizes| then opt.sizes[l] else 0
  }

  // The level's share of files for this ratio, rounded down; none is no limit.
  function Share(opt: Options, l: nat, ratio: real): nat
    requires ratio >= 0.0
  {
    if l < |opt.allowed| then (opt.allowed[l] as real * ratio).Floor else 0
  }

  // need_compaction: more files than the level's share, if the level has one.
  predicate NeedCompaction(opt: Options, l: nat, n: nat, ratio: real)
    requires ratio >= 0.0
  {
    0 < Share(opt, l, ratio) < n
  }

  // The files compact() keeps of n chosen ones: all but the share given back for the ratio.
  function Kept(n: nat, ratio: real): (k: nat)
    requires 0.0 < ratio <= 1.0
    ensures k <= n && (ratio == 1.0 ==> k == n) && (n > 0 ==> k > 0)
  {
    KeptBounds(n, ratio);
    n - (n as real * (1.0 - ratio)).Floor
  }

  lemma KeptBounds(n: nat, ratio: real)
    requires 0.0 < ratio <= 1.0
    ensures 0.0 <= n as real * (1.0 - ratio) <= n as real
    ensures n > 0 ==> n as real * (1.0 - ratio) < n as real
  {}

  // The files of level l of the current version.
  predicate AtLevel(s: State, l: nat, f: FileId)
    requires s.versions != []
  {
    f in Current(s) && f in s.disk && s.disk[f].level == l
  }

  // compaction_policy_oldest::compacting_files: the level's files oldest first without the newest one,
  // and above level 1 the next level's files that overlap the oldest one, in whatever order.
  ghost predicate Chosen(s: State, l: nat, byTime: seq<FileId>, pulled: seq<FileId>) {
    && s.versions != [] && byTime != []
    && (forall f :: f in byTime <==> AtLevel(s, l, f))
    && OldestFirst(s.disk, byTime)
    && (l <= 1 ==> pulled == [])
    && (forall i, j | 0 <= i < j < |pulled| :: pulled[i] != pulled[j])
    && (l > 1 ==>
          forall f :: f in pulled <==>
            AtLevel(s, l + 1, f) && |byTime| > 1 && Overlap(Contents(s.disk[byTime[0]]), Contents(s.disk[f])))
  }

  // sstable::overlapped, on the entries of the two tables.
  predicate Overlap(a: seq<Entry>, b: seq<Entry>) {
    a != [] && b != [] && !UserLess(a[|a| - 1].key.user, b[0].key.user) && !UserLess(b[|b| - 1].key.user, a[0].key.user)
  }

  function Backwards(s: State, files: seq<FileId>): (lists: seq<seq<Entry>>)
    requires forall f | f in files :: f in s.disk
    ensures |lists| == |files|
  {
    seq(|files|, i requires 0 <= i < |files| => Reverse(Contents(s.disk[files[i]])))
  }

  function Selected(byTime: seq<FileId>, pulled: seq<FileId>, ratio: real): seq<FileId>
    requires byTime != [] && 0.0 < ratio <= 1.0
  {
    var candidates := byTime[..|byTime| - 1] + pulled;
    candidates[..Kept(|candidates|, ratio)]
  }

  // may_compact for one level: choose, merge, write the outputs one level down, install the delta.
  ghost predicate CompactStep(cfg: TableConfig, opt: Options, s: State, l: nat, ratio: real,
                              byTime: seq<FileId>, pulled: seq<FileId>, tables: seq<seq<seq<Entry>>>, s': State)
  {
    && l <= opt.maxLevel && 0.0 < ratio <= 1.0 && Chosen(s, l, byTime, pulled)
    && NeedCompaction(opt, l, |byTime|, ratio)
    && var sel := Selected(byTime, pulled, ratio);
    && (forall f | f in sel :: f in s.disk) && MergeWritten(cfg, Backwards(s, sel), tables)
    && s' == Install(s, l + 1, tables, sel)
  }

  /* ---- snapshots and garbage */

  predicate Pinned(s: State, id: nat) {
    exists k | k in s.snaps :: s.snaps[k].version == id
  }

  function LiveVersions(s: State, versions: seq<VersionRec>): seq<VersionRec> {
    if versions == [] then []
    else if |versions| == 1 then versions
    else (if Pinned(s, versions[0].id) then [versions[0]] else []) + LiveVersions(s, versions[1..])
  }

  // do_GC: versions nobody guards go first, then the files no remaining version guards.
  function CollectGarbage(s: State): State {
    var versions := LiveVersions(s, s.versions);
    s.(versions := versions,
       disk := map f | f in s.disk && (exists i | 0 <= i < |versions| :: f in versions[i].files) :: s.disk[f])
  }

  // db_local::get_snapshot; with the number 0, before the first write, a snapshot is not valid.
  function TakeSnapshot(s: State, k: nat): State
    requires s.versions != [] && 1 <= s.nextSeq <= 0x1_0000_0000
  {
    s.(snaps := s.snaps[k := Snapshot(s.nextSeq - 1, s.versions[|s.versions| - 1].id)])
  }

  function DropSnapshot(s: State, k: nat): State {
    s.(snaps := s.snaps - {k})
  }
}
