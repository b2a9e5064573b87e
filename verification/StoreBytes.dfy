/** The read path computed from the bytes of the stored files. */
module StoreBytes {
  import opened Bytes
  import opened Keys
  import opened TableImages
  import opened TableLookup
  import opened TableReads
  import opened TableTheorems
  import opened Store
  import opened StoreInvariant
  import opened StoreRefinement
  import opened StoreRuns

  // The files as they lie on disk.
  ghost predicate StoredAs(cfg: TableConfig, s: State, bytes: map<FileId, Data>) {
    forall f | f in s.disk ::
      && f in bytes && OffsetsReadable(cfg) && bytes[f] == TableOf(cfg, s.disk[f].parts)
      && FilterKeeps(cfg, Contents(s.disk[f]))
  }

  predicate OffsetsReadable(cfg: TableConfig) {
    cfg.block.interval > 4
  }

  /* What the buffers hold behind the bytes read, file by file and read by read. */
  type Junks = FileId -> Junk

  // The answer of one file: opened, its meta data parsed, the key searched.
  function FileAnswer(cfg: TableConfig, file: Data, user: Data, q: SeqNo, junk: Junk): Answer {
    match ParseTable(cfg.block, file, junk)
    case Parsed(t) => GetKvEntry(cfg, file, t, user, q, junk)
    case _ => Broken
  }

  function LaterAnswer(a: Answer, b: Answer): Answer {
    match (a, b)
    case (Broken, _) => Broken
    case (_, Broken) => Broken
    case (Absent, _) => b
    case (_, Absent) => a
    case (Found(x), Found(y)) => if KeyLess(x.key, y.key) then b else a
  }

  function LevelBytes(cfg: TableConfig, s: State, bytes: map<FileId, Data>, files: seq<FileId>, l: nat, user: Data,
                      q: SeqNo, junk: Junks): Answer
    requires forall f | f in files :: f in s.disk && f in bytes
  {
    if files == [] then Absent
    else
      var rest := LevelBytes(cfg, s, bytes, files[1..], l, user, q, junk);
      if s.disk[files[0]].level != l then rest
      else LaterAnswer(FileAnswer(cfg, bytes[files[0]], user, q, junk(files[0])), rest)
  }

  function SstBytes(cfg: TableConfig, s: State, bytes: map<FileId, Data>, files: seq<FileId>, user: Data, q: SeqNo,
                    l: nat, levels: nat, junk: Junks): Answer
    requires forall f | f in files :: f in s.disk && f in bytes
    decreases levels - l
  {
    if levels <= l then Absent
    else
      match LevelBytes(cfg, s, bytes, files, l, user, q, junk)
      case Absent => SstBytes(cfg, s, bytes, files, user, q, l + 1, levels, junk)
      case answer => answer
  }

  // db_local::get on the memtable and the files' bytes.
  function GetBytes(cfg: TableConfig, s: State, bytes: map<FileId, Data>, user: Data, junk: Junks): Answer
    requires s.versions != [] && Readable(s.disk, Current(s)) && 1 <= s.nextSeq <= 0x1_0000_0000
    requires forall f | f in Current(s) :: f in bytes
  {
    match MemGet(s.mem, user, s.nextSeq - 1)
    case Some(e) => Found(e)
    case None => SstBytes(cfg, s, bytes, Current(s), user, s.nextSeq - 1, 0, Levels(s.disk, Current(s)), junk)
  }

  function AsAnswer(r: Option<Entry>): Answer {
    match r
    case None => Absent
    case Some(e) => Found(e)
  }

  lemma FileAnswers(cfg: TableConfig, r: FileRec, user: Data, q: SeqNo, junk: Junk)
    requires WellFormed(cfg, r.parts) && OffsetsReadable(cfg) && FilterKeeps(cfg, Contents(r)) && ValidUser(user)
    ensures FileAnswer(cfg, TableOf(cfg, r.parts), user, q, junk) == AsAnswer(TableGet(r.parts, user, q))
  {
    hide WellFormed, TableOf, FilterKeeps, ParseTable, GetKvEntry, TableGet;
    FileSorted(cfg, r);
    TableAnswers(cfg, r.parts, user, q, junk);
  }

  lemma {:induction false} LevelBytesAnswer(cfg: TableConfig, s: State, bytes: map<FileId, Data>, files: seq<FileId>,
                                            l: nat, user: Data, q: SeqNo, junk: Junks)
    requires DiskOk(cfg, s) && StoredAs(cfg, s, bytes) && ValidUser(user) && Readable(s.disk, files)
    ensures LevelBytes(cfg, s, bytes, files, l, user, q, junk) == AsAnswer(LevelAnswer(s.disk, files, l, user, q))
  {
    hide WellFormed, TableOf, FilterKeeps, FileAnswer, TableGet, Contents, Below, KeyLess;
    if files != [] {
      LevelBytesAnswer(cfg, s, bytes, files[1..], l, user, q, junk);
      var r := s.disk[files[0]];
      assert GoodFile(cfg, r, s.nextSeq, s.clock);
      FileAnswers(cfg, r, user, q, junk(files[0]));
    }
  }

  lemma {:induction false} SstBytesAnswer(cfg: TableConfig, s: State, bytes: map<FileId, Data>, files: seq<FileId>,
                                          user: Data, q: SeqNo, l: nat, levels: nat, junk: Junks)
    requires DiskOk(cfg, s) && StoredAs(cfg, s, bytes) && ValidUser(user) && Readable(s.disk, files)
    ensures SstBytes(cfg, s, bytes, files, user, q, l, levels, junk) ==
              AsAnswer(SstGet(s.disk, files, user, q, l, levels))
    decreases levels - l
  {
    hide DiskOk, TableOf, LevelBytes, LevelAnswer, FilterKeeps;
    if l < levels {
      LevelBytesAnswer(cfg, s, bytes, files, l, user, q, junk);
      SstBytesAnswer(cfg, s, bytes, files, user, q, l + 1, levels, junk);
    }
  }

  lemma GetBytesAnswer(cfg: TableConfig, s: State, bytes: map<FileId, Data>, user: Data, junk: Junks)
    requires DiskOk(cfg, s) && s.versions != [] && Readable(s.disk, Current(s)) && 1 <= s.nextSeq <= 0x1_0000_0000
    requires StoredAs(cfg, s, bytes) && ValidUser(user)
    ensures forall f | f in Current(s) :: f in bytes
    ensures GetBytes(cfg, s, bytes, user, junk) == AsAnswer(Lookup(s, Current(s), user, s.nextSeq - 1))
  {
    hide DiskOk, SstBytes, SstGet, MemGet, TableOf, FilterKeeps, Levels;
    SstBytesAnswer(cfg, s, bytes, Current(s), user, s.nextSeq - 1, 0, Levels(s.disk, Current(s)), junk);
  }

  function AnswerValue(a: Answer): Option<Data> {
    match a
    case Found(e) => ValueIn(Some(e))
    case _ => None
  }

  // What a read of the memtable and the files' bytes answers, against the plain map.
  ghost predicate ReadsBytes(cfg: TableConfig, s: State, bytes: map<FileId, Data>, m: map<Data, Data>, user: Data,
                             junk: Junks) {
    && s.versions != [] && Readable(s.disk, Current(s)) && 1 <= s.nextSeq <= 0x1_0000_0000
    && (forall f | f in Current(s) :: f in bytes)
    && var r := GetBytes(cfg, s, bytes, user, junk);
    && !r.Broken? && AnswerValue(r) == (if user in m then Some(m[user]) else None)
  }

  // From bytes to the map: after any run from the empty store, reading a key that no compaction stranded
  // from the memtable and from the bytes of the table files gives what the plain map holds; no check or
  // read fails, whatever the buffers hold behind the blocks.
  lemma BytesRefineMap(cfg: TableConfig, opt: Options, states: seq<State>, steps: seq<Step>, bytes: map<FileId, Data>,
                       user: Data, junk: Junks)
    requires Run(cfg, opt, states, steps) && states[0] == Init() && StoredAs(cfg, states[|steps|], bytes)
    requires ValidUser(user)
    requires forall i | 0 <= i < |steps| :: !StrandsStep(states[i], steps[i], user)
    ensures ReadsBytes(cfg, states[|steps|], bytes, PlainRun(map[], steps), user, junk)
  {
    hide Sound, Inv, Agrees, Next, Init, Reads, ReadsBytes, StoredAs, PlainRun, StrandsStep;
    InitHolds(cfg);
    InitAgrees();
    InvSound(cfg, Init());
    RunRefines(cfg, opt, states, steps, map[]);
    StoreRefinesMap(cfg, opt, states, steps, user);
    SameFromBytes(cfg, states[|steps|], bytes, PlainRun(map[], steps), user, junk);
  }

  lemma SameFromBytes(cfg: TableConfig, s: State, bytes: map<FileId, Data>, m: map<Data, Data>, user: Data, junk: Junks)
    requires Sound(cfg, s) && Reads(s, m, user) && StoredAs(cfg, s, bytes) && ValidUser(user)
    ensures ReadsBytes(cfg, s, bytes, m, user, junk)
  {
    hide Sound, Readable, Lookup, GetBytes, StoredAs;
    SoundDisk(cfg, s);
    GetBytesAnswer(cfg, s, bytes, user, junk);
  }

  lemma SoundDisk(cfg: TableConfig, s: State)
    requires Sound(cfg, s)
    ensures DiskOk(cfg, s)
  {}
}
