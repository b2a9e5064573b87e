/** Whole runs of the store: refinement of the plain map, and what held snapshots read. */
module StoreRuns {
  import opened Bytes
  import opened Keys
  import opened TableImages
  import opened TableLookup
  import opened TableTheorems
  import opened TableWriting
  import opened Store
  import opened StoreInvariant
  import opened StoreRefinement
  import opened StoreStale
  import G = Guarding

  type Tables = seq<seq<seq<Entry>>>

  datatype Step =
    | DoWrite(batch: seq<Write>)
    | DoFlush(tables: Tables)
    | DoCompact(level: nat, ratio: real, byTime: seq<FileId>, pulled: seq<FileId>, tables: Tables)
    | DoCollect
    | DoTake(k: nat)
    | DoDrop(k: nat)

  // One atomic step: a batch that fits the memtable, a flush, a compaction, a garbage collection,
  // taking or dropping a snapshot.
  ghost predicate Next(cfg: TableConfig, opt: Options, s: State, step: Step, s': State) {
    match step
    case DoWrite(batch) =>
      && s.nextSeq + |batch| <= 0x1_0000_0000 && (forall w | w in batch :: GoodWrite(w))
      && s.memBytes + BatchBytes(batch) <= opt.memBound && s' == PutAll(s, batch)
    case DoFlush(tables) => FlushStep(cfg, s, tables, s')
    case DoCompact(level, ratio, byTime, pulled, tables) =>
      CompactStep(cfg, opt, s, level, ratio, byTime, pulled, tables, s')
    case DoCollect => s' == CollectGarbage(s)
    case DoTake(k) => s.versions != [] && 1 <= s.nextSeq <= 0x1_0000_0000 && s' == TakeSnapshot(s, k)
    case DoDrop(k) => s' == DropSnapshot(s, k)
  }

  // Compactions with a harmless selection: always so for levels 0 and 1.
  ghost predicate HarmlessStep(s: State, step: Step) {
    match step
    case DoCompact(level, ratio, byTime, pulled, _) =>
      s.versions != [] && byTime != [] && 0.0 < ratio <= 1.0 && Harmless(s, level, Selected(byTime, pulled, ratio))
    case _ => true
  }

  predicate LowStep(step: Step) {
    step.DoCompact? ==> step.level <= 1
  }

  // Compactions that strand the key.
  ghost predicate StrandsStep(s: State, step: Step, user: Data) {
    match step
    case DoCompact(level, ratio, byTime, pulled, _) =>
      s.versions != [] && byTime != [] && 0.0 < ratio <= 1.0 && Strands(s, level, Selected(byTime, pulled, ratio), user)
    case _ => false
  }

  lemma LowLevelsHarmless(cfg: TableConfig, opt: Options, s: State, step: Step, s': State)
    requires Next(cfg, opt, s, step, s') && LowStep(step)
    ensures HarmlessStep(s, step)
  {
    hide Selected, Chosen, Compacts, Install, Harmless, CompactStep;
    if step.DoCompact? {
      StepCompacts(cfg, opt, s, step.level, step.ratio, step.byTime, step.pulled, step.tables, s');
      ChosenVersion(s, step.level, step.byTime, step.pulled);
      LowLevelsAreHarmless(s, step.level, step.byTime, step.pulled, step.ratio);
    }
  }

  lemma ChosenVersion(s: State, l: nat, byTime: seq<FileId>, pulled: seq<FileId>)
    requires Chosen(s, l, byTime, pulled)
    ensures s.versions != []
  {}

  function PlainStep(m: map<Data, Data>, step: Step): map<Data, Data> {
    if step.DoWrite? then ApplyAll(m, step.batch) else m
  }

  lemma SnapAgrees(s: State, s': State, m: map<Data, Data>)
    requires s.versions != [] && Agrees(s, m) && s'.mem == s.mem && s'.disk == s.disk && s'.versions == s.versions
    ensures Agrees(s', m)
  {
    hide Agrees, IsTop, Contents;
    forall e ensures Holds(s, e) <==> Holds(s', e) {}
    SameHoldsSameTops(s, s');
    SameTopsAgree(s, s', m);
  }

  // Every step, whatever it compacts, keeps the store sound and in agreement with the plain map.
  lemma StepRefines(cfg: TableConfig, opt: Options, s: State, step: Step, s': State, m: map<Data, Data>)
    requires Sound(cfg, s) && s.versions != [] && Agrees(s, m) && Next(cfg, opt, s, step, s')
    ensures Sound(cfg, s') && s'.versions != [] && Agrees(s', PlainStep(m, step))
  {
    hide Sound, Inv, Agrees, CompactStep, FlushStep, Selected, GoodWrite, CollectGarbage, PutAll, Compacts;
    match step
    case DoWrite(batch) => PutAllAgrees(cfg, s, batch, m);
    case DoFlush(tables) =>
      FlushKeeps(cfg, s, tables, s');
      FlushAgrees(cfg, s, tables, s', m);
    case DoCompact(level, ratio, byTime, pulled, tables) =>
      StepCompacts(cfg, opt, s, level, ratio, byTime, pulled, tables, s');
      CompactKeeps(cfg, opt, s, level, ratio, byTime, pulled, tables, s');
      CompactAgrees(cfg, opt, s, level, ratio, byTime, pulled, tables, s', m);
    case DoCollect =>
      CollectKeeps(cfg, s);
      CollectAgrees(cfg, s, m);
    case DoTake(k) =>
      SnapshotKeeps(cfg, s, k);
      SnapAgrees(s, s', m);
    case DoDrop(k) =>
      DropKeeps(cfg, s, k);
      SnapAgrees(s, s', m);
  }

  // A harmless step keeps the level invariant too.
  lemma StepKeepsLevels(cfg: TableConfig, opt: Options, s: State, step: Step, s': State, m: map<Data, Data>)
    requires Inv(cfg, s) && s.versions != [] && Agrees(s, m) && Next(cfg, opt, s, step, s') && HarmlessStep(s, step)
    ensures Inv(cfg, s')
  {
    hide Sound, Inv, Agrees, CompactStep, FlushStep, Selected, Harmless, GoodWrite, CollectGarbage, PutAll;
    InvSound(cfg, s);
    match step
    case DoWrite(batch) => PutAllAgrees(cfg, s, batch, m);
    case DoFlush(tables) => FlushKeeps(cfg, s, tables, s');
    case DoCompact(level, ratio, byTime, pulled, tables) =>
      CompactKeeps(cfg, opt, s, level, ratio, byTime, pulled, tables, s');
    case DoCollect => CollectKeeps(cfg, s);
    case DoTake(k) => SnapshotKeeps(cfg, s, k);
    case DoDrop(k) => DropKeeps(cfg, s, k);
  }

  lemma InvSound(cfg: TableConfig, s: State)
    requires Inv(cfg, s)
    ensures Sound(cfg, s) && s.versions != []
  {
    hide DiskOk, SnapsOk, MemOk, MemOverAll, GoodVersion;
  }

  // A key that is not stale becomes stale in exactly one kind of step: a compaction that strands it.
  lemma StepStaleExact(cfg: TableConfig, opt: Options, s: State, step: Step, s': State, user: Data)
    requires Sound(cfg, s) && s.versions != [] && Next(cfg, opt, s, step, s') && !Stale(s, user)
    ensures s'.versions != [] && (Stale(s', user) <==> StrandsStep(s, step, user))
  {
    hide Sound, CompactStep, FlushStep, Selected, GoodWrite, CollectGarbage, PutAll, Stale, Strands, Compacts, IsTop;
    match step
    case DoWrite(batch) => PutAllNotStale(cfg, s, batch, user);
    case DoFlush(tables) => FlushNotStale(cfg, s, tables, s', user);
    case DoCompact(level, ratio, byTime, pulled, tables) =>
      StepCompacts(cfg, opt, s, level, ratio, byTime, pulled, tables, s');
      StepStrandsExact(cfg, opt, s, level, ratio, byTime, pulled, tables, s', user);
    case DoCollect => CollectNotStale(cfg, s, user);
    case DoTake(k) => SnapsNotStale(s, s', user);
    case DoDrop(k) => SnapsNotStale(s, s', user);
  }

  lemma SnapsNotStale(s: State, s': State, user: Data)
    requires s.versions != [] && s'.mem == s.mem && s'.disk == s.disk && s'.versions == s.versions && !Stale(s, user)
    ensures !Stale(s', user)
  {
    hide IsTop, Contents, Stale;
    forall e ensures Holds(s, e) <==> Holds(s', e) {}
    SameHoldsSameTops(s, s');
    SameFilesSameStale(s, s', user);
  }

  // A run: states linked by steps.
  ghost predicate Run(cfg: TableConfig, opt: Options, states: seq<State>, steps: seq<Step>) {
    && |states| == |steps| + 1
    && forall i | 0 <= i < |steps| :: Next(cfg, opt, states[i], steps[i], states[i + 1])
  }

  lemma RunPrefix(cfg: TableConfig, opt: Options, states: seq<State>, steps: seq<Step>)
    requires Run(cfg, opt, states, steps) && steps != []
    ensures var n := |steps| - 1; Run(cfg, opt, states[..n + 1], steps[..n])
  {
    hide Next;
    var n := |steps| - 1;
    var states', steps' := states[..n + 1], steps[..n];
    forall i | 0 <= i < |steps'| ensures Next(cfg, opt, states'[i], steps'[i], states'[i + 1]) {
      assert steps'[i] == steps[i] && states'[i] == states[i] && states'[i + 1] == states[i + 1];
    }
  }

  function PlainRun(m: map<Data, Data>, steps: seq<Step>): map<Data, Data> {
    if steps == [] then m else PlainStep(PlainRun(m, steps[..|steps| - 1]), steps[|steps| - 1])
  }

  lemma InitAgrees()
    ensures Agrees(Init(), map[])
  {}

  lemma {:induction false} RunRefines(cfg: TableConfig, opt: Options, states: seq<State>, steps: seq<Step>,
                                      m: map<Data, Data>)
    requires Run(cfg, opt, states, steps) && Sound(cfg, states[0]) && states[0].versions != [] && Agrees(states[0], m)
    ensures var last := states[|steps|]; Sound(cfg, last) && last.versions != [] && Agrees(last, PlainRun(m, steps))
    decreases |steps|
  {
    hide Sound, Agrees, Next;
    if steps != [] {
      var n := |steps| - 1;
      RunPrefix(cfg, opt, states, steps);
      RunRefines(cfg, opt, states[..n + 1], steps[..n], m);
      StepRefines(cfg, opt, states[n], steps[n], states[n + 1], PlainRun(m, steps[..n]));
    }
  }

  // A key that no step strands never becomes stale.
  lemma {:induction false} RunNotStale(cfg: TableConfig, opt: Options, states: seq<State>, steps: seq<Step>,
                                       m: map<Data, Data>, user: Data)
    requires Run(cfg, opt, states, steps) && Sound(cfg, states[0]) && states[0].versions != [] && Agrees(states[0], m)
    requires !Stale(states[0], user) && forall i | 0 <= i < |steps| :: !StrandsStep(states[i], steps[i], user)
    ensures var last := states[|steps|]; last.versions != [] && !Stale(last, user)
    decreases |steps|
  {
    hide Sound, Agrees, Next, Stale, StrandsStep;
    if steps != [] {
      var n := |steps| - 1;
      RunPrefix(cfg, opt, states, steps);
      RunRefines(cfg, opt, states[..n + 1], steps[..n], m);
      RunNotStale(cfg, opt, states[..n + 1], steps[..n], m, user);
      StepStaleExact(cfg, opt, states[n], steps[n], states[n + 1], user);
    }
  }

  // Harmless steps keep the level invariant over a whole run.
  lemma {:induction false} RunKeepsLevels(cfg: TableConfig, opt: Options, states: seq<State>, steps: seq<Step>,
                                          m: map<Data, Data>)
    requires Run(cfg, opt, states, steps) && Inv(cfg, states[0]) && states[0].versions != [] && Agrees(states[0], m)
    requires forall i | 0 <= i < |steps| :: HarmlessStep(states[i], steps[i])
    ensures Inv(cfg, states[|steps|])
    decreases |steps|
  {
    hide Sound, Inv, Agrees, Next, HarmlessStep;
    if steps != [] {
      var n := |steps| - 1;
      InvSound(cfg, states[0]);
      RunPrefix(cfg, opt, states, steps);
      RunRefines(cfg, opt, states[..n + 1], steps[..n], m);
      RunKeepsLevels(cfg, opt, states[..n + 1], steps[..n], m);
      StepKeepsLevels(cfg, opt, states[n], steps[n], states[n + 1], PlainRun(m, steps[..n]));
    }
  }

  lemma {:induction false} LowRunHarmless(cfg: TableConfig, opt: Options, states: seq<State>, steps: seq<Step>)
    requires Run(cfg, opt, states, steps) && forall i | 0 <= i < |steps| :: LowStep(steps[i])
    ensures forall i | 0 <= i < |steps| :: HarmlessStep(states[i], steps[i])
  {
    hide Next, HarmlessStep, LowStep;
    forall i | 0 <= i < |steps| ensures HarmlessStep(states[i], steps[i]) {
      LowLevelsHarmless(cfg, opt, states[i], steps[i], states[i + 1]);
    }
  }

  // What a read without snapshot returns, against the plain map.
  ghost predicate Reads(s: State, m: map<Data, Data>, user: Data) {
    && s.versions != [] && Readable(s.disk, Current(s)) && 1 <= s.nextSeq <= 0x1_0000_0000
    && Get(s, user) == if user in m then Some(m[user]) else None
  }

  // Refinement: after any run from the empty store, whatever was compacted, a read of a key that no
  // compaction stranded returns what the plain last-write-wins map holds, removed keys being absent.
  lemma StoreRefinesMap(cfg: TableConfig, opt: Options, states: seq<State>, steps: seq<Step>, user: Data)
    requires Run(cfg, opt, states, steps) && states[0] == Init()
    requires forall i | 0 <= i < |steps| :: !StrandsStep(states[i], steps[i], user)
    ensures Reads(states[|steps|], PlainRun(map[], steps), user)
  {
    hide Sound, Inv, Agrees, Next, Get, Init, Readable, Stale, StrandsStep;
    InitHolds(cfg);
    InitAgrees();
    InvSound(cfg, Init());
    LayeredNotStale(cfg, Init(), user);
    RunRefines(cfg, opt, states, steps, map[]);
    RunNotStale(cfg, opt, states, steps, map[], user);
    GetAgrees(cfg, states[|steps|], PlainRun(map[], steps), user);
  }

  // For every key when every compaction is harmless.
  lemma HarmlessRunRefinesMap(cfg: TableConfig, opt: Options, states: seq<State>, steps: seq<Step>, user: Data)
    requires Run(cfg, opt, states, steps) && states[0] == Init()
    requires forall i | 0 <= i < |steps| :: HarmlessStep(states[i], steps[i])
    ensures Reads(states[|steps|], PlainRun(map[], steps), user)
  {
    hide Sound, Inv, Agrees, Next, Get, Init, Readable, Stale, HarmlessStep;
    InitHolds(cfg);
    InitAgrees();
    InvSound(cfg, Init());
    RunRefines(cfg, opt, states, steps, map[]);
    RunKeepsLevels(cfg, opt, states, steps, map[]);
    LayeredNotStale(cfg, states[|steps|], user);
    GetAgrees(cfg, states[|steps|], PlainRun(map[], steps), user);
  }

  // In particular when only levels 0 and 1 are compacted.
  lemma LowRunRefinesMap(cfg: TableConfig, opt: Options, states: seq<State>, steps: seq<Step>, user: Data)
    requires Run(cfg, opt, states, steps) && states[0] == Init() && forall i | 0 <= i < |steps| :: LowStep(steps[i])
    ensures Reads(states[|steps|], PlainRun(map[], steps), user)
  {
    hide Next, Init, Reads, HarmlessStep, LowStep;
    LowRunHarmless(cfg, opt, states, steps);
    HarmlessRunRefinesMap(cfg, opt, states, steps, user);
  }

  /* ---------------------------------------------------------------- snapshots */

  // The memtable search does not see entries newer than the query.
  lemma {:induction false} InsertInvisible(mem: seq<Entry>, e: Entry, user: Data, q: SeqNo)
    requires q < e.key.seqNo
    ensures NewestIn(InsertSorted(mem, e), user, q) == NewestIn(mem, user, q)
  {
    hide KeyLess;
    if mem == [] {
      assert [e][..0] == [];
    } else {
      var front, last := mem[..|mem| - 1], mem[|mem| - 1];
      InsertInvisible(front, e, user, q);
      if KeyLess(last.key, e.key) {
        assert (mem + [e])[..|mem|] == mem;
      } else {
        assert (InsertSorted(front, e) + [last])[..|InsertSorted(front, e)|] == InsertSorted(front, e);
      }
    }
  }

  // A snapshot that is held: its files are there to read, and all they hold is visible to it.
  lemma SnapReadable(cfg: TableConfig, s: State, k: nat)
    requires Sound(cfg, s) && k in s.snaps
    ensures Readable(s.disk, VersionFiles(s.versions, s.snaps[k].version))
    ensures AllVisible(s.disk, VersionFiles(s.versions, s.snaps[k].version), s.snaps[k].seqNo)
    ensures HasVersion(s, s.snaps[k].version) && s.snaps[k].seqNo < s.nextSeq
  {
    hide KeySorted, Below, Contents, DiskOk, VersionsOk, MemOk, MemOverAll, VersionFiles;
    FilesReadable(cfg, s, VersionFiles(s.versions, s.snaps[k].version));
  }

  lemma {:induction false} LevelAnswerFrame(disk: map<FileId, FileRec>, disk': map<FileId, FileRec>, files: seq<FileId>,
                                            l: nat, user: Data, q: SeqNo)
    requires Readable(disk, files) && forall f | f in files :: f in disk' && disk'[f] == disk[f]
    ensures Readable(disk', files) && LevelAnswer(disk', files, l, user, q) == LevelAnswer(disk, files, l, user, q)
    ensures Levels(disk', files) == Levels(disk, files)
  {
    hide TableGet;
    if files != [] {
      LevelAnswerFrame(disk, disk', files[1..], l, user, q);
    }
  }

  lemma {:induction false} SstGetFrame(disk: map<FileId, FileRec>, disk': map<FileId, FileRec>, files: seq<FileId>,
                                       user: Data, q: SeqNo, l: nat, levels: nat)
    requires Readable(disk, files) && forall f | f in files :: f in disk' && disk'[f] == disk[f]
    ensures Readable(disk', files)
    ensures SstGet(disk', files, user, q, l, levels) == SstGet(disk, files, user, q, l, levels)
    decreases levels - l
  {
    hide LevelAnswer;
    LevelAnswerFrame(disk, disk', files, l, user, q);
    if l < levels {
      SstGetFrame(disk, disk', files, user, q, l + 1, levels);
    }
  }

  lemma SnapLookupFrame(s: State, s': State, snap: Snapshot, user: Data)
    requires Readable(s.disk, VersionFiles(s.versions, snap.version))
    requires VersionFiles(s'.versions, snap.version) == VersionFiles(s.versions, snap.version)
    requires forall f | f in VersionFiles(s.versions, snap.version) :: f in s'.disk && s'.disk[f] == s.disk[f]
    ensures var files := VersionFiles(s.versions, snap.version);
            && Readable(s'.disk, VersionFiles(s'.versions, snap.version))
            && SnapLookup(s', snap, user) == (match MemGet(s'.mem, user, snap.seqNo)
                                              case Some(e) => Some(e)
                                              case None =>
                                                SstGet(s.disk, files, user, snap.seqNo, 0, Levels(s.disk, files)))
  {
    hide MemGet, SstGet, Levels, VersionFiles;
    var files := VersionFiles(s.versions, snap.version);
    LevelAnswerFrame(s.disk, s'.disk, files, 0, user, snap.seqNo);
    SstGetFrame(s.disk, s'.disk, files, user, snap.seqNo, 0, Levels(s.disk, files));
  }

  lemma {:induction false} PutAllInvisible(cfg: TableConfig, s: State, batch: seq<Write>, user: Data, q: SeqNo)
    requires Sound(cfg, s) && q < s.nextSeq && s.nextSeq + |batch| <= 0x1_0000_0000
    requires forall w | w in batch :: GoodWrite(w)
    ensures var s' := PutAll(s, batch);
            && MemGet(s'.mem, user, q) == MemGet(s.mem, user, q)
            && s'.disk == s.disk && s'.versions == s.versions && s'.snaps == s.snaps
    decreases |batch|
  {
    hide MemGet, Sound, KeySorted, GoodWrite;
    if batch != [] {
      assert batch[0] in batch;
      var s1 := PutOne(s, batch[0]);
      var e := Entry(SeqKey(s.nextSeq, batch[0].user), batch[0].value);
      PutOneKeeps(cfg, s, batch[0]);
      InsertInvisible(s.mem, e, user, q);
      CurrentGood(cfg, s);
      CurrentGood(cfg, s1);
      MemGetIsNewest(s.mem, user, q);
      MemGetIsNewest(s1.mem, user, q);
      PutAllInvisible(cfg, s1, batch[1..], user, q);
    }
  }

  // A flush moves the memtable into a file that the pinned version does not list: a version of the key
  // that the snapshot saw there is out of its sight.
  predicate Hides(s: State, step: Step, snap: Snapshot, user: Data) {
    step.DoFlush? && MemGet(s.mem, user, snap.seqNo).Some?
  }

  // Exactly which steps change what a held snapshot finds: a flush that hides a version from it.
  lemma StepSnapshotExact(cfg: TableConfig, opt: Options, s: State, step: Step, s': State, k: nat, user: Data)
    requires Sound(cfg, s) && s.versions != [] && Next(cfg, opt, s, step, s')
    requires k in s.snaps && k in s'.snaps && s'.snaps[k] == s.snaps[k]
    ensures Readable(s.disk, VersionFiles(s.versions, s.snaps[k].version))
    ensures Readable(s'.disk, VersionFiles(s'.versions, s.snaps[k].version))
    ensures SnapLookup(s', s.snaps[k], user) == SnapLookup(s, s.snaps[k], user) <==> !Hides(s, step, s.snaps[k], user)
  {
    hide Sound, Next, MemGet, SstGet, Levels, VersionFiles, SnapLookup, Readable, AllVisible, HasVersion;
    var snap := s.snaps[k];
    SnapReadable(cfg, s, k);
    StepFrame(cfg, opt, s, step, s', k);
    SnapLookupFrame(s, s', snap, user);
    SnapLookupFrame(s, s, snap, user);
    StepMem(cfg, opt, s, step, s', snap, user);
    if Hides(s, step, snap, user) {
      NotOnDisk(cfg, s, k, user);
    }
  }

  // The pinned version and its files stay as they are.
  lemma StepFrame(cfg: TableConfig, opt: Options, s: State, step: Step, s': State, k: nat)
    requires Sound(cfg, s) && s.versions != [] && Next(cfg, opt, s, step, s')
    requires k in s.snaps && k in s'.snaps && s'.snaps[k] == s.snaps[k]
    ensures var id := s.snaps[k].version;
            && VersionFiles(s'.versions, id) == VersionFiles(s.versions, id)
            && forall f | f in VersionFiles(s.versions, id) :: f in s'.disk && f in s.disk && s'.disk[f] == s.disk[f]
  {
    hide KeySorted, VersionFiles, CollectGarbage, PutAll, CompactStep, GoodWrite, FlushStep, DiskOk, MemOk, MemOverAll,
         SnapsOk, Install, Compacts, AllVisible, GoodVersion, HasVersion;
    var id := s.snaps[k].version;
    SnapReadable(cfg, s, k);
    match step {
      case DoWrite(batch) => PutAllInvisible(cfg, s, batch, [], s.snaps[k].seqNo);
      case DoFlush(tables) =>
        if s.mem != [] {
          FlushedMem(cfg, s, tables, s');
          SameVersions(s, s.(mem := [], memBytes := 0), id);
          InstallFrame(s.(mem := [], memBytes := 0), 0, tables, [], id);
        } else {
          EmptyFlush(cfg, s, tables, s');
        }
      case DoCompact(level, ratio, byTime, pulled, tables) =>
        StepCompacts(cfg, opt, s, level, ratio, byTime, pulled, tables, s');
        var sel := Selected(byTime, pulled, ratio);
        CompactReplaces(cfg, s, sel, tables);
        InstallFrame(s, level + 1, tables, sel, id);
      case DoCollect =>
        assert Pinned(s, id);
        CollectedVersion(s, id);
        CollectFrame(s);
      case DoTake(k') =>
      case DoDrop(k') =>
    }
  }

  lemma InstallFrame(s: State, level: nat, tables: Tables, gone: seq<FileId>, id: nat)
    requires Replaceable(s, gone) && HasVersion(s, id)
    ensures var s' := Install(s, level, tables, gone);
            && VersionFiles(s'.versions, id) == VersionFiles(s.versions, id)
            && forall f | f in s.disk :: f in s'.disk && s'.disk[f] == s.disk[f]
  {
    hide VersionFiles, G.WithDelta, G.NoDuplicates, NewIds;
    var s' := Install(s, level, tables, gone);
    InstallHasVersion(s, level, tables, gone);
    assert s'.versions == s.versions + s'.versions[|s.versions|..];
    VersionFilesPrefix(s.versions, s'.versions[|s.versions|..], id);
    NewIdsMean(s, |tables|);
  }

  // What the memtable shows a snapshot is not changed by any step but a flush, which leaves nothing.
  lemma StepMem(cfg: TableConfig, opt: Options, s: State, step: Step, s': State, snap: Snapshot, user: Data)
    requires Sound(cfg, s) && s.versions != [] && Next(cfg, opt, s, step, s') && snap.seqNo < s.nextSeq
    ensures MemGet(s'.mem, user, snap.seqNo) == if step.DoFlush? then None else MemGet(s.mem, user, snap.seqNo)
  {
    hide Sound, CollectGarbage, PutAll, CompactStep, GoodWrite, Install, Compacts, MemGet, WellFormed, AllEntries,
         Selected;
    match step {
      case DoWrite(batch) => PutAllInvisible(cfg, s, batch, user, snap.seqNo);
      case DoFlush(tables) => NothingInMem(user, snap.seqNo);
      case DoCompact(level, ratio, byTime, pulled, tables) =>
        StepCompacts(cfg, opt, s, level, ratio, byTime, pulled, tables, s');
        CompactsSome(cfg, s, Selected(byTime, pulled, ratio), tables);
        InstallHasVersion(s, level + 1, tables, Selected(byTime, pulled, ratio));
      case DoCollect => CollectFrame(s);
      case DoTake(k') =>
      case DoDrop(k') =>
    }
  }

  lemma NothingInMem(user: Data, q: SeqNo)
    ensures MemGet([], user, q) == None
  {}

  // What a snapshot finds in the memtable is in none of its files.
  lemma NotOnDisk(cfg: TableConfig, s: State, k: nat, user: Data)
    requires Sound(cfg, s) && s.versions != [] && k in s.snaps && MemGet(s.mem, user, s.snaps[k].seqNo).Some?
    ensures var snap, files := s.snaps[k], VersionFiles(s.versions, s.snaps[k].version);
            && Readable(s.disk, files)
            && SstGet(s.disk, files, user, snap.seqNo, 0, Levels(s.disk, files)) != MemGet(s.mem, user, snap.seqNo)
  {
    hide MemGet, SstGet, Levels, Sound, KeySorted, VersionFiles, AllVisible, Contents, LevelTop, IsNewest;
    var snap, files := s.snaps[k], VersionFiles(s.versions, s.snaps[k].version);
    SnapReadable(cfg, s, k);
    PinnedMem(cfg, s, snap.version);
    CurrentGood(cfg, s);
    MemGetIsNewest(s.mem, user, snap.seqNo);
    var e := MemGet(s.mem, user, snap.seqNo).value;
    FoundInList(s.mem, user, snap.seqNo, e);
    LevelsAbove(s.disk, files);
    SstGetFirst(s.disk, files, user, snap.seqNo, 0, Levels(s.disk, files));
    var r := SstGet(s.disk, files, user, snap.seqNo, 0, Levels(s.disk, files));
    if r == Some(e) {
      var m :| 0 <= m && LevelTop(s.disk, files, m, user, r) && NoneBetween(s.disk, files, 0, m, user);
      var f := LevelHolder(s.disk, files, m, user, e);
      NewerPair(s.mem, Contents(s.disk[f]), e, e);
    }
  }

  lemma FoundInList(mem: seq<Entry>, user: Data, q: SeqNo, e: Entry)
    requires IsNewest(mem, user, q, Some(e))
    ensures e in mem && e.key.user == user
  {}

  lemma PinnedMem(cfg: TableConfig, s: State, id: nat)
    requires Sound(cfg, s) && HasVersion(s, id)
    ensures MemAbove(s, VersionFiles(s.versions, id))
  {
    hide DiskOk, SnapsOk, MemOk, MemAbove, GoodVersion, VersionFiles;
    var i :| 0 <= i < |s.versions| && s.versions[i].id == id;
    FindVersion(s.versions, i);
  }

  // Held throughout: the snapshot stays in place and no flush hides a version of the key from it. Only
  // the first flush can: afterwards the memtable holds nothing that it sees.
  ghost predicate HeldThroughout(states: seq<State>, steps: seq<Step>, k: nat, snap: Snapshot, user: Data)
    requires |states| == |steps| + 1
  {
    && (forall i | 0 <= i < |states| :: k in states[i].snaps && states[i].snaps[k] == snap)
    && (forall i | 0 <= i < |steps| :: !Hides(states[i], steps[i], snap, user))
  }

  lemma {:induction false} SnapshotStable(cfg: TableConfig, opt: Options, states: seq<State>, steps: seq<Step>, k: nat,
                                          snap: Snapshot, user: Data, m: map<Data, Data>)
    requires Run(cfg, opt, states, steps) && Sound(cfg, states[0]) && states[0].versions != [] && Agrees(states[0], m)
    requires HeldThroughout(states, steps, k, snap, user)
    ensures Readable(states[0].disk, VersionFiles(states[0].versions, snap.version))
    ensures Readable(states[|steps|].disk, VersionFiles(states[|steps|].versions, snap.version))
    ensures SnapLookup(states[|steps|], snap, user) == SnapLookup(states[0], snap, user)
    decreases |steps|
  {
    hide Sound, Agrees, Next, Hides, Readable, SnapLookup, VersionFiles;
    SnapReadable(cfg, states[0], k);
    if steps != [] {
      var n := |steps| - 1;
      RunPrefix(cfg, opt, states, steps);
      SnapshotStable(cfg, opt, states[..n + 1], steps[..n], k, snap, user, m);
      RunRefines(cfg, opt, states[..n + 1], steps[..n], m);
      StepSnapshotExact(cfg, opt, states[n], steps[n], states[n + 1], k, user);
    }
  }

  // A snapshot just taken finds what a plain read finds.
  lemma FreshSnapshotReads(cfg: TableConfig, s: State, k: nat, user: Data)
    requires Sound(cfg, s)
    ensures var s' := TakeSnapshot(s, k);
            && Readable(s.disk, Current(s)) && k in s'.snaps
            && Readable(s'.disk, VersionFiles(s'.versions, s'.snaps[k].version))
            && SnapLookup(s', s'.snaps[k], user) == Lookup(s, Current(s), user, s.nextSeq - 1)
  {
    hide DiskOk, VersionsOk, MemOverAll, SstGet, MemGet, Levels, VersionFiles, SnapsOk, AllVisible, KeySorted, Below,
         GoodVersion;
    LatestVersion(cfg, s);
    CurrentGood(cfg, s);
  }

  // Snapshots read the past: a snapshot taken after one run of a key that no compaction stranded, and
  // held over any further run whose flushes hide nothing from it, keeps answering with the plain map as it
  // was when the snapshot was taken, whatever is written, compacted and collected.
  lemma SnapshotReadsPast(cfg: TableConfig, opt: Options, before: seq<State>, past: seq<Step>, k: nat,
                          states: seq<State>, steps: seq<Step>, user: Data)
    requires Run(cfg, opt, before, past) && before[0] == Init()
    requires forall i | 0 <= i < |past| :: !StrandsStep(before[i], past[i], user)
    requires Run(cfg, opt, states, steps) && Next(cfg, opt, before[|past|], DoTake(k), states[0])
    requires k in states[0].snaps && HeldThroughout(states, steps, k, states[0].snaps[k], user)
    ensures var last, snap, m := states[|steps|], states[0].snaps[k], PlainRun(map[], past);
            && Readable(last.disk, VersionFiles(last.versions, snap.version))
            && SnapGet(last, snap, user) == (if user in m then Some(m[user]) else None)
  {
    hide Sound, Inv, Agrees, Get, Init, Readable, SnapGet, VersionFiles, StrandsStep, HeldThroughout, TakeSnapshot,
         Lookup, Next, Reads, PlainRun;
    var s, m := before[|past|], PlainRun(map[], past);
    InitHolds(cfg);
    InitAgrees();
    InvSound(cfg, Init());
    RunRefines(cfg, opt, before, past, map[]);
    StoreRefinesMap(cfg, opt, before, past, user);
    TakeNext(cfg, opt, s, k, states[0]);
    TakenReads(cfg, s, k, m, user);
    SnapshotKeeps(cfg, s, k);
    SnapTakenAgrees(s, k, m);
    SnapshotStable(cfg, opt, states, steps, k, states[0].snaps[k], user, m);
    SameLookup(states[0], states[|steps|], states[0].snaps[k], user);
  }

  lemma TakeNext(cfg: TableConfig, opt: Options, s: State, k: nat, s': State)
    requires Next(cfg, opt, s, DoTake(k), s')
    ensures s.versions != [] && 1 <= s.nextSeq <= 0x1_0000_0000 && s' == TakeSnapshot(s, k)
  {}

  lemma SameLookup(s: State, s': State, snap: Snapshot, user: Data)
    requires Readable(s.disk, VersionFiles(s.versions, snap.version))
    requires Readable(s'.disk, VersionFiles(s'.versions, snap.version))
    requires SnapLookup(s', snap, user) == SnapLookup(s, snap, user)
    ensures SnapGet(s', snap, user) == SnapGet(s, snap, user)
  {
    hide SnapLookup, Readable, VersionFiles;
  }

  lemma SnapTakenAgrees(s: State, k: nat, m: map<Data, Data>)
    requires s.versions != [] && 1 <= s.nextSeq <= 0x1_0000_0000 && Agrees(s, m)
    ensures TakeSnapshot(s, k).versions != [] && Agrees(TakeSnapshot(s, k), m)
  {
    hide Agrees;
    SnapAgrees(s, TakeSnapshot(s, k), m);
  }

  lemma TakenReads(cfg: TableConfig, s: State, k: nat, m: map<Data, Data>, user: Data)
    requires Sound(cfg, s) && Reads(s, m, user)
    ensures var s' := TakeSnapshot(s, k);
            && k in s'.snaps && Readable(s'.disk, VersionFiles(s'.versions, s'.snaps[k].version))
            && SnapGet(s', s'.snaps[k], user) == (if user in m then Some(m[user]) else None)
  {
    hide Sound, SnapLookup, Lookup, Readable, VersionFiles;
    FreshSnapshotReads(cfg, s, k, user);
  }

  /* --------------------------------------------------------------------- from here to there */

  ghost predicate Joins(cfg: TableConfig, opt: Options, s: State, states: seq<State>, steps: seq<Step>, s': State) {
    Run(cfg, opt, states, steps) && states[0] == s && states[|steps|] == s'
  }

  // Some run with these steps leads from one state to the other.
  ghost predicate Leads(cfg: TableConfig, opt: Options, s: State, steps: seq<Step>, s': State) {
    exists states :: Joins(cfg, opt, s, states, steps, s')
  }

  lemma LeadsNowhere(cfg: TableConfig, opt: Options, s: State)
    ensures Leads(cfg, opt, s, [], s)
  {
    assert Joins(cfg, opt, s, [s], [], s);
  }

  lemma LeadsOn(cfg: TableConfig, opt: Options, s: State, steps: seq<Step>, s': State, step: Step, s'': State)
    requires Leads(cfg, opt, s, steps, s') && Next(cfg, opt, s', step, s'')
    ensures Leads(cfg, opt, s, steps + [step], s'')
  {
    hide Next;
    var states :| Joins(cfg, opt, s, states, steps, s');
    var states', steps' := states + [s''], steps + [step];
    forall i | 0 <= i < |steps'| ensures Next(cfg, opt, states'[i], steps'[i], states'[i + 1]) {
      if i < |steps| {
        assert states'[i] == states[i] && states'[i + 1] == states[i + 1] && steps'[i] == steps[i];
      }
    }
    assert Joins(cfg, opt, s, states', steps', s'');
  }

  // Levels above 1 are allowed any number of files, so they are never compacted.
  predicate LowShares(opt: Options) {
    forall l | 2 <= l < |opt.allowed| :: opt.allowed[l] == 0
  }

  lemma LowSharesLow(cfg: TableConfig, opt: Options, s: State, step: Step, s': State)
    requires Next(cfg, opt, s, step, s') && LowShares(opt)
    ensures LowStep(step)
  {
    hide Selected, Chosen, Compacts, Install, CompactStep;
    if step.DoCompact? {
      StepCompacts(cfg, opt, s, step.level, step.ratio, step.byTime, step.pulled, step.tables, s');
    }
  }

  // A run of a store that compacts its first two levels only keeps the level invariant, so no key is stale.
  lemma LeadsKeepsLevels(cfg: TableConfig, opt: Options, s: State, steps: seq<Step>, s': State, m: map<Data, Data>)
    requires Leads(cfg, opt, s, steps, s') && LowShares(opt) && Inv(cfg, s) && s.versions != [] && Agrees(s, m)
    ensures Inv(cfg, s')
  {
    hide Next, Inv, Agrees, HarmlessStep, LowShares, LowStep;
    var states :| Joins(cfg, opt, s, states, steps, s');
    forall i | 0 <= i < |steps| ensures LowStep(steps[i]) {
      LowSharesLow(cfg, opt, states[i], steps[i], states[i + 1]);
    }
    LowRunHarmless(cfg, opt, states, steps);
    RunKeepsLevels(cfg, opt, states, steps, m);
  }

  predicate KeepsSnaps(step: Step) {
    !step.DoTake? && !step.DoDrop?
  }

  lemma StepKeepsSnaps(cfg: TableConfig, opt: Options, s: State, step: Step, s': State)
    requires s.versions != [] && Next(cfg, opt, s, step, s') && KeepsSnaps(step)
    ensures s'.snaps == s.snaps
  {
    hide CollectGarbage, PutAll, CompactStep, Compacts, Install, WellFormed, Selected, AllEntries;
    match step
    case DoWrite(batch) => PutAllSnaps(s, batch);
    case DoFlush(tables) =>
      if s.mem != [] {
        InstallHasVersion(s.(mem := [], memBytes := 0), 0, tables, []);
        FlushSnaps(cfg, s, tables, s');
      }
    case DoCompact(level, ratio, byTime, pulled, tables) =>
      StepCompacts(cfg, opt, s, level, ratio, byTime, pulled, tables, s');
      InstallHasVersion(s, level + 1, tables, Selected(byTime, pulled, ratio));
    case DoCollect => CollectFrame(s);
  }

  lemma FlushSnaps(cfg: TableConfig, s: State, tables: Tables, s': State)
    requires s.versions != [] && FlushStep(cfg, s, tables, s')
    ensures s'.snaps == s.snaps
  {
    hide WellFormed, AllEntries, G.WithDelta;
  }

  lemma {:induction false} PutAllSnaps(s: State, batch: seq<Write>)
    requires s.nextSeq + |batch| <= 0x1_0000_0000
    ensures PutAll(s, batch).snaps == s.snaps
    decreases |batch|
  {
    if batch != [] {
      PutAllSnaps(PutOne(s, batch[0]), batch[1..]);
    }
  }

  // After a flush a held snapshot finds only what the files of its version hold.
  lemma {:induction false} FlushedSnapshot(cfg: TableConfig, opt: Options, states: seq<State>, steps: seq<Step>, k: nat,
                                           user: Data, m: map<Data, Data>)
    requires Run(cfg, opt, states, steps) && Sound(cfg, states[0]) && states[0].versions != [] && Agrees(states[0], m)
    requires steps != [] && steps[0].DoFlush? && (forall i | 0 <= i < |steps| :: KeepsSnaps(steps[i]))
    requires k in states[0].snaps
    ensures var s, last, snap := states[0], states[|steps|], states[0].snaps[k];
            && last.snaps == s.snaps && MemGet(last.mem, user, snap.seqNo) == None
            && VersionFiles(last.versions, snap.version) == VersionFiles(s.versions, snap.version)
    decreases |steps|
  {
    hide Sound, Agrees, Next, MemGet, VersionFiles, KeepsSnaps;
    var n := |steps| - 1;
    RunPrefix(cfg, opt, states, steps);
    RunRefines(cfg, opt, states[..n + 1], steps[..n], m);
    if n > 0 {
      FlushedSnapshot(cfg, opt, states[..n + 1], steps[..n], k, user, m);
    }
    SnapReadable(cfg, states[n], k);
    StepKeepsSnaps(cfg, opt, states[n], steps[n], states[n + 1]);
    StepFrame(cfg, opt, states[n], steps[n], states[n + 1], k);
    StepMem(cfg, opt, states[n], steps[n], states[n + 1], states[0].snaps[k], user);
  }
}
