/** What an insertion does to the store: how a full memtable makes room, which level is compacted on the
    way, and what becomes of the number of files on level 0. */
module StoreInserts {
  import opened TableImages
  import opened TableTheorems
  import opened TableWriting
  import opened Store
  import opened StoreInvariant
  import opened StoreRuns
  import opened StoreExact
  import opened StoreLevels

  /* ---- which level is compacted */

  // A compaction of this level, its outputs divided by the file size of the next one.
  ghost predicate CompactedBy(cfg: TableConfig, opt: Options, s: State, l: nat, ratio: real, step: Step, s': State) {
    && step.DoCompact? && step.level == l && step.ratio == ratio
    && CompactStep(cfg, opt, s, l, ratio, step.byTime, step.pulled, step.tables, s')
    && Divided(cfg, FileSize(opt, l + 1), step.tables)
  }

  // The first level from this one on that needs it is compacted, or nothing when none does.
  ghost predicate CompactsFirst(cfg: TableConfig, opt: Options, s: State, from: nat, ratio: real, done: seq<Step>,
                                s': State)
    requires ratio >= 0.0
  {
    if done == [] then s' == s && forall l: nat | from <= l <= opt.maxLevel :: !Needs(opt, s, l, ratio)
    else
      && |done| == 1 && done[0].DoCompact?
      && var l := done[0].level;
      && from <= l <= opt.maxLevel && Needs(opt, s, l, ratio)
      && (forall k: nat | from <= k < l :: !Needs(opt, s, k, ratio))
      && CompactedBy(cfg, opt, s, l, ratio, done[0], s')
  }

  // No level but level 0 needs a compaction whose outputs have no size limit.
  ghost predicate Limited(opt: Options, s: State) {
    && s.versions != []
    && forall l: nat | 0 < l <= opt.maxLevel && Needs(opt, s, l, 1.0) :: FileSize(opt, l + 1) != 0
  }

  lemma AlwaysIsNow(opt: Options, s: State)
    requires AlwaysLimited(opt, 1.0) && s.versions != []
    ensures Limited(opt, s)
  {
    hide LevelSet;
  }

  /* ---- how a memtable makes room */

  // Every so many flushes one is followed by a compaction.
  predicate Due(opt: Options, hint: nat) {
    opt.allowed != [] && opt.allowed[0] >= 2 && hint % (opt.allowed[0] - 1) == 0
  }

  ghost predicate Flushed(cfg: TableConfig, opt: Options, s: State, tables: Tables, s': State) {
    && FlushStep(cfg, s, tables, s')
    && if s.mem == [] then tables == [] else Divided(cfg, FileSize(opt, 0), tables)
  }

  // A flush; and when a compaction is due, that of the first level that needs one, and a collection.
  ghost predicate MakesRoom(cfg: TableConfig, opt: Options, s: State, due: bool, steps: seq<Step>, s': State) {
    exists tables, flushed, done, compacted :: RoomMade(cfg, opt, s, due, steps, s', tables, flushed, done, compacted)
  }

  ghost predicate RoomMade(cfg: TableConfig, opt: Options, s: State, due: bool, steps: seq<Step>, s': State,
                           tables: Tables, flushed: State, done: seq<Step>, compacted: State) {
    && Flushed(cfg, opt, s, tables, flushed)
    && if due then
         && CompactsFirst(cfg, opt, flushed, 0, 1.0, done, compacted) && s' == CollectGarbage(compacted)
         && steps == [DoFlush(tables)] + done + [DoCollect]
       else steps == [DoFlush(tables)] && s' == flushed
  }

  // The steps of making room.
  predicate RoomSteps(steps: seq<Step>) {
    && steps != [] && steps[0].DoFlush?
    && forall i | 1 <= i < |steps| :: steps[i].DoCompact? || steps[i].DoCollect?
  }

  // Making room is a run of the store, which leaves an empty memtable.
  lemma RoomLeads(cfg: TableConfig, opt: Options, s: State, due: bool, steps: seq<Step>, s': State)
    requires MakesRoom(cfg, opt, s, due, steps, s')
    ensures RoomSteps(steps) && Leads(cfg, opt, s, steps, s') && (|steps| == 1 <==> !due)
  {
    hide Leads, CollectGarbage, CompactStep, FlushStep, Needs, Divided;
    var tables, flushed, done: seq<Step>, compacted :|
      RoomMade(cfg, opt, s, due, steps, s', tables, flushed, done, compacted);
    LeadsNowhere(cfg, opt, s);
    assert Next(cfg, opt, s, DoFlush(tables), flushed);
    LeadsOn(cfg, opt, s, [], s, DoFlush(tables), flushed);
    var now := [DoFlush(tables)];
    assert [] + now == now;
    if due {
      if done != [] {
        assert Next(cfg, opt, flushed, done[0], compacted);
        LeadsOn(cfg, opt, s, now, flushed, done[0], compacted);
        assert done == [done[0]];
      } else {
        assert now + done == now;
      }
      assert Next(cfg, opt, compacted, DoCollect, s');
      LeadsOn(cfg, opt, s, now + done, compacted, DoCollect, s');
    }
  }

  lemma RoomEmpties(cfg: TableConfig, opt: Options, s: State, due: bool, steps: seq<Step>, s': State)
    requires MakesRoom(cfg, opt, s, due, steps, s')
    ensures s'.mem == [] && s'.memBytes == 0 && s'.nextSeq == s.nextSeq && s'.snaps == s.snaps
  {
    hide Needs, Divided, NeedCompaction, Chosen, Selected, Backwards, MergeWritten, Install, WellFormed, AllEntries,
         LiveVersions;
    var tables, flushed, done: seq<Step>, compacted :|
      RoomMade(cfg, opt, s, due, steps, s', tables, flushed, done, compacted);
    if s.mem != [] {
      InstallHasVersion(s, 0, tables, []);
    }
    if due && done != [] {
      var step := done[0];
      StepCompacts(cfg, opt, flushed, step.level, 1.0, step.byTime, step.pulled, step.tables, compacted);
      InstallHasVersion(flushed, step.level + 1, step.tables, Selected(step.byTime, step.pulled, 1.0));
    }
  }

  // What making room does to level 0: the flushed tables join it, and when a compaction is due and they are
  // more files than allowed, one remains.
  lemma RoomLevelZero(cfg: TableConfig, opt: Options, s: State, due: bool, steps: seq<Step>, s': State)
    requires Sound(cfg, s) && s.versions != [] && opt.allowed != [] && MakesRoom(cfg, opt, s, due, steps, s')
    ensures steps != [] && steps[0].DoFlush? && s'.versions != []
    ensures var n := |LevelSet(s, 0)| + |steps[0].tables|;
            |LevelSet(s', 0)| == if due && 0 < opt.allowed[0] < n then 1 else n
  {
    hide Sound, Inv, FlushStep, CompactStep, CollectGarbage, LevelSet, Divided, NeedCompaction, Selected;
    var tables, flushed, done: seq<Step>, compacted :|
      RoomMade(cfg, opt, s, due, steps, s', tables, flushed, done, compacted);
    FlushLevels(cfg, s, tables, flushed);
    FlushKeeps(cfg, s, tables, flushed);
    NeedsFull(opt, 0, |LevelSet(flushed, 0)|);
    assert Needs(opt, flushed, 0, 1.0) <==> NeedCompaction(opt, 0, |LevelSet(flushed, 0)|, 1.0);
    if due {
      CollectLevel(cfg, flushed, 0);
      if done != [] {
        var step := done[0];
        CompactedLevelZero(cfg, opt, flushed, step, compacted);
        CollectLevel(cfg, compacted, 0);
      }
    }
  }

  lemma CompactedLevelZero(cfg: TableConfig, opt: Options, s: State, step: Step, s': State)
    requires Sound(cfg, s) && s.versions != [] && step.DoCompact? && CompactedBy(cfg, opt, s, step.level, 1.0, step, s')
    ensures s'.versions != [] && Sound(cfg, s')
    ensures if step.level == 0 then |LevelSet(s', 0)| == 1 else LevelSet(s', 0) == LevelSet(s, 0)
  {
    hide Sound, Inv, CompactStep, LevelSet, Divided, Selected, Install, Chosen, Compacts, NeedCompaction;
    StepCompacts(cfg, opt, s, step.level, 1.0, step.byTime, step.pulled, step.tables, s');
    InstallHasVersion(s, step.level + 1, step.tables, Selected(step.byTime, step.pulled, 1.0));
    CompactLevels(cfg, opt, s, step.level, 1.0, step.byTime, step.pulled, step.tables, s');
    CompactKeeps(cfg, opt, s, step.level, 1.0, step.byTime, step.pulled, step.tables, s');
  }

  lemma {:induction false} TablesNoMore(cfg: TableConfig, tables: Tables)
    requires forall t | 0 <= t < |tables| :: WellFormed(cfg, tables[t])
    ensures |tables| <= |AllEntries(tables)|
  {
    hide WellFormed;
    if tables != [] {
      TableNonEmpty(cfg, tables[0]);
      TablesNoMore(cfg, tables[1..]);
    }
  }

  // One entry in the memtable makes one table.
  lemma OneTable(cfg: TableConfig, opt: Options, s: State, tables: Tables, s': State)
    requires Flushed(cfg, opt, s, tables, s') && |s.mem| == 1
    ensures |tables| == 1
  {
    hide WellFormed, Install, Divided;
    TablesNoMore(cfg, tables);
  }

  lemma RoomOneTable(cfg: TableConfig, opt: Options, s: State, due: bool, steps: seq<Step>, s': State)
    requires MakesRoom(cfg, opt, s, due, steps, s') && |s.mem| == 1
    ensures steps != [] && steps[0].DoFlush? && |steps[0].tables| == 1
  {
    hide Flushed, CompactsFirst, CollectGarbage;
    var tables, flushed, done: seq<Step>, compacted :|
      RoomMade(cfg, opt, s, due, steps, s', tables, flushed, done, compacted);
    OneTable(cfg, opt, s, tables, flushed);
  }

  // Room made this many times, the hint counting on.
  ghost predicate MadeRoom(cfg: TableConfig, opt: Options, s: State, hint: nat, n: nat, room: seq<Step>, s': State)
    decreases n, 1
  {
    if n == 0 then room == [] && s' == s
    else exists front, mid, last :: RoomAgain(cfg, opt, s, hint, n, room, s', front, mid, last)
  }

  ghost predicate RoomAgain(cfg: TableConfig, opt: Options, s: State, hint: nat, n: nat, room: seq<Step>, s': State,
                            front: seq<Step>, mid: State, last: seq<Step>)
    decreases n, 0
  {
    && n > 0 && MadeRoom(cfg, opt, s, hint, n - 1, front, mid)
    && MakesRoom(cfg, opt, mid, Due(opt, hint + n - 1), last, s') && room == front + last
  }

  lemma MadeOnce(cfg: TableConfig, opt: Options, s: State, hint: nat, room: seq<Step>, s': State)
    requires MadeRoom(cfg, opt, s, hint, 1, room, s')
    ensures MakesRoom(cfg, opt, s, Due(opt, hint), room, s')
  {
    hide MakesRoom, Due;
    var front, mid, last :| RoomAgain(cfg, opt, s, hint, 1, room, s', front, mid, last);
    assert [] + last == last;
  }

  /* ---- an insertion */

  // Steps that make room, any number of times.
  predicate WithRoom(steps: seq<Step>) {
    && steps != [] && steps[0].DoFlush?
    && forall i | 0 <= i < |steps| :: steps[i].DoFlush? || steps[i].DoCompact? || steps[i].DoCollect?
  }

  // The steps of an insertion: room is made, if need be, and the batch is written.
  predicate Inserts(steps: seq<Step>, batch: seq<Write>) {
    && steps != [] && steps[|steps| - 1] == DoWrite(batch)
    && (|steps| > 1 ==> WithRoom(steps[..|steps| - 1]))
  }

  // An insertion that made room n times, and wrote the batch in the end or gave up.
  ghost predicate InsertRan(cfg: TableConfig, opt: Options, s: State, hint: nat, n: nat, batch: seq<Write>, done: bool,
                            steps: seq<Step>, s': State) {
    exists room, mid :: InsertedBy(cfg, opt, s, hint, n, batch, done, steps, s', room, mid)
  }

  ghost predicate InsertedBy(cfg: TableConfig, opt: Options, s: State, hint: nat, n: nat, batch: seq<Write>, done: bool,
                             steps: seq<Step>, s': State, room: seq<Step>, mid: State) {
    && MadeRoom(cfg, opt, s, hint, n, room, mid)
    && if done then
         && mid.nextSeq + |batch| <= 0x1_0000_0000
         && steps == room + [DoWrite(batch)] && s' == PutAll(mid, batch)
       else steps == room && s' == mid
  }

  // An insertion into a memtable that had room, or was flushed once.
  ghost predicate Inserted(cfg: TableConfig, opt: Options, s: State, hint: nat, batch: seq<Write>, steps: seq<Step>,
                           s': State) {
    || (steps == [DoWrite(batch)] && s.nextSeq + |batch| <= 0x1_0000_0000 && s' == PutAll(s, batch))
    || (exists room, mid :: RoomThenWrite(cfg, opt, s, hint, batch, steps, s', room, mid))
  }

  ghost predicate RoomThenWrite(cfg: TableConfig, opt: Options, s: State, hint: nat, batch: seq<Write>,
                                steps: seq<Step>, s': State, room: seq<Step>, mid: State) {
    && MakesRoom(cfg, opt, s, Due(opt, hint), room, mid) && mid.nextSeq + |batch| <= 0x1_0000_0000
    && steps == room + [DoWrite(batch)] && s' == PutAll(mid, batch)
  }

  lemma InsertedOnce(cfg: TableConfig, opt: Options, s: State, hint: nat, n: nat, batch: seq<Write>,
                     steps: seq<Step>, s': State)
    requires n <= 1 && InsertRan(cfg, opt, s, hint, n, batch, true, steps, s')
    ensures Inserted(cfg, opt, s, hint, batch, steps, s')
  {
    hide MakesRoom, Due, PutAll, MadeRoom;
    var room, mid :| InsertedBy(cfg, opt, s, hint, n, batch, true, steps, s', room, mid);
    if n == 1 {
      MadeOnce(cfg, opt, s, hint, room, mid);
      assert RoomThenWrite(cfg, opt, s, hint, batch, steps, s', room, mid);
    } else {
      MadeNever(cfg, opt, s, hint, room, mid);
      assert [] + [DoWrite(batch)] == [DoWrite(batch)];
    }
  }

  lemma MadeNever(cfg: TableConfig, opt: Options, s: State, hint: nat, room: seq<Step>, s': State)
    requires MadeRoom(cfg, opt, s, hint, 0, room, s')
    ensures room == [] && s' == s
  {}

  lemma RoomGrows(room: seq<Step>, more: seq<Step>)
    requires (room == [] || WithRoom(room)) && RoomSteps(more)
    ensures WithRoom(room + more)
  {
    var all := room + more;
    forall i | 0 <= i < |all| ensures all[i].DoFlush? || all[i].DoCompact? || all[i].DoCollect? {
      if i >= |room| { assert all[i] == more[i - |room|]; }
    }
  }

  lemma InsertsAfter(room: seq<Step>, batch: seq<Write>)
    requires room == [] || WithRoom(room)
    ensures Inserts(room + [DoWrite(batch)], batch)
  {
    assert (room + [DoWrite(batch)])[..|room|] == room;
  }

  lemma LeadsJoin(cfg: TableConfig, opt: Options, s: State, a: seq<Step>, s': State, b: seq<Step>, s'': State)
    requires Leads(cfg, opt, s, a, s') && Leads(cfg, opt, s', b, s'')
    ensures Leads(cfg, opt, s, a + b, s'')
  {
    hide Next;
    var states :| Joins(cfg, opt, s, states, a, s');
    var later :| Joins(cfg, opt, s', later, b, s'');
    var all, steps := states + later[1..], a + b;
    forall i | 0 <= i < |steps| ensures Next(cfg, opt, all[i], steps[i], all[i + 1]) {
      if i < |a| {
        assert all[i] == states[i] && all[i + 1] == states[i + 1] && steps[i] == a[i];
      } else {
        var j := i - |a|;
        assert all[i] == later[j] && all[i + 1] == later[j + 1] && steps[i] == b[j];
      }
    }
    assert Joins(cfg, opt, s, all, steps, s'');
  }
}
