/** What a client of the database sees: two writes, of which the second makes the memtable go to disk,
    plain reads, and reads with snapshots taken before and after. */
module Clients {
  import opened Bytes
  import opened Keys
  import opened TableImages
  import opened TableLimits
  import opened Store
  import opened StoreInvariant
  import opened StoreRefinement
  import opened StoreRuns
  import opened StoreBytes
  import opened StoreExact
  import opened StoreLimits
  import opened StoreLevels
  import opened StoreInserts
  import opened Memtables
  import opened Bloom
  import opened Database

  function Read(m: map<Data, Data>, user: Data): Option<Data> {
    if user in m then Some(m[user]) else None
  }

  // Options under which no call stops at an assertion.
  ghost predicate SuitsToo(opt: Options) {
    && opt.allowed != [] && opt.allowed[0] >= 2 && (forall l | 0 <= l < |opt.allowed| :: opt.allowed[l] != 1)
    && FileSize(opt, 0) != 0 && FileSize(opt, 1) != 0 && AlwaysLimited(opt, 1.0)
  }

  lemma RestLimited(opt: Options, s: State)
    requires SuitsToo(opt) && s.versions != []
    ensures Limited(opt, s)
  {
    hide Limited, AlwaysLimited;
    AlwaysIsNow(opt, s);
  }

  // The database as it is between two calls.
  ghost predicate AtRest(cfg: TableConfig, opt: Options, s: State, m: map<Data, Data>) {
    Inv(cfg, s) && s.versions != [] && Agrees(s, m) && LowShares(opt)
  }

  lemma RestGood(cfg: TableConfig, opt: Options, s: State, m: map<Data, Data>, files: map<FileId, DiskFile>)
    requires Good(cfg, s, m, files) && Inv(cfg, s) && LowShares(opt)
    ensures AtRest(cfg, opt, s, m)
  {
    hide Inv, Agrees, Bounded, FilesStored;
  }

  lemma RestReads(cfg: TableConfig, opt: Options, s: State, m: map<Data, Data>, user: Data)
    requires AtRest(cfg, opt, s, m)
    ensures s.versions != [] && !Stale(s, user)
  {
    hide Inv, Agrees;
    LayeredNotStale(cfg, s, user);
  }

  lemma RestLeads(cfg: TableConfig, opt: Options, s: State, m: map<Data, Data>, steps: seq<Step>, s': State)
    requires AtRest(cfg, opt, s, m) && Leads(cfg, opt, s, steps, s')
    ensures Inv(cfg, s')
  {
    hide Inv, Agrees, Leads;
    LeadsKeepsLevels(cfg, opt, s, steps, s', m);
  }

  lemma RestTakes(cfg: TableConfig, opt: Options, s: State, m: map<Data, Data>, k: nat)
    requires AtRest(cfg, opt, s, m) && 1 <= s.nextSeq <= 0x1_0000_0000
    ensures Inv(cfg, TakeSnapshot(s, k))
  {
    hide Inv, Agrees;
    InvSound(cfg, s);
    SnapshotKeeps(cfg, s, k);
  }

  // A snapshot of a store that has written no file finds nothing any more once the memtable is flushed.
  lemma BlindSnapshot(cfg: TableConfig, opt: Options, s: State, m: map<Data, Data>, batch: seq<Write>, steps: seq<Step>,
                      s': State, k: nat, user: Data, r: Option<Data>)
    requires AtRest(cfg, opt, s, m) && Leads(cfg, opt, s, steps, s') && Inserts(steps, batch) && |steps| > 1
    requires k in s.snaps && VersionFiles(s.versions, s.snaps[k].version) == [] && SnapAnswers(s', s.snaps[k], user, r)
    ensures r == None
  {
    hide Inv, Sound, Agrees, Next, MemGet;
    InvSound(cfg, s);
    var states :| Joins(cfg, opt, s, states, steps, s');
    InsertSteps(steps, batch);
    FlushedSnapshot(cfg, opt, states, steps, k, user, m);
    assert SstGet(s'.disk, [], user, s.snaps[k].seqNo, 0, 0) == None;
  }

  lemma InsertSteps(steps: seq<Step>, batch: seq<Write>)
    requires Inserts(steps, batch) && |steps| > 1
    ensures steps[0].DoFlush? && forall i | 0 <= i < |steps| :: KeepsSnaps(steps[i])
  {
    var room := steps[..|steps| - 1];
    forall i | 0 <= i < |steps| ensures KeepsSnaps(steps[i]) {
      if i < |room| { assert room[i] == steps[i]; }
    }
    assert room[0] == steps[0];
  }

  // The first write, as a state.
  lemma FirstWrite(a: Write)
    ensures var s := PutAll(Init(), [a]);
            && s.memBytes == BatchBytes([a]) && s.nextSeq == 2 && s.versions == [VersionRec(0, [])] && s.snaps == map[]
  {
    hide BatchBytes, InsertSorted;
    PutAllNumbered(Init(), [a]);
    assert PutAll(Init(), [a]) == PutAll(PutOne(Init(), a), []);
  }

  // A new database, one write, and a snapshot that answers with it.
  method OpenAndWrite(cfg: TableConfig, opt: Options, hash: Hash, a: Write, junk: Junks)
    returns (db: DbLocal, before: Option<Data>)
    requires Suits(cfg, hash) && SuitsToo(opt) && LowShares(opt)
    requires SmallWrites([a]) && ValidUser(a.user) && BatchBytes([a]) <= opt.memBound
    ensures fresh(db) && fresh(db.mem) && fresh(db.center) && db.cfg == cfg && db.opt == opt && db.Valid()
    ensures db.plain == ApplyAll(map[], [a]) && before == Read(db.plain, a.user)
    ensures AtRest(cfg, opt, db.Value(), db.plain) && db.mem.sizeBytes == BatchBytes([a]) && db.center.newestUnused == 2
    ensures db.versions == [VersionRec(0, [])] && db.snaps == map[0 := Snapshot(1, 0)] && HeldCount(db.Value()) <= 1
  {
    hide Good, Suits, BatchBytes, ApplyAll, PutAll, HeldCount, Leads, SmallWrites, Inserts, Inv, AtRest, Stale,
         SnapAnswers, LowShares, Init, DbLocal.Configured, Limited, AlwaysLimited, Inserted;
    db := new DbLocal(cfg, opt, hash);
    InitIs(cfg);
    FirstWrite(a);
    RestGood(cfg, opt, db.Value(), db.plain, db.files);
    ghost var s0, m0 := db.Value(), db.plain;
    RestLimited(opt, s0);
    ghost var steps := db.Insert([a], junk);
    RestLeads(cfg, opt, s0, m0, steps, db.Value());
    RestGood(cfg, opt, db.Value(), db.plain, db.files);
    RestReads(cfg, opt, db.Value(), db.plain, a.user);
    RestTakes(cfg, opt, db.Value(), db.plain, 0);
    db.TakeSnapshot(0);
    before := db.GetAt(0, a.user, junk);
    SameAnswer(db.Value(), db.snaps[0], a.user, before, Read(db.plain, a.user));
    RestGood(cfg, opt, db.Value(), db.plain, db.files);
  }

  // Two writes that do not fit a memtable together. Plain reads see both; a snapshot taken in between sees
  // the first one until the second is made, and then nothing; one taken afterwards sees the first again.
  method WriteTwice(cfg: TableConfig, opt: Options, hash: Hash, a: Write, b: Write, junk: Junks)
    returns (before: Option<Data>, after: Option<Data>, readA: Option<Data>, readB: Option<Data>, later: Option<Data>)
    requires Suits(cfg, hash) && SuitsToo(opt) && LowShares(opt)
    requires SmallWrites([a]) && SmallWrites([b]) && ValidUser(a.user) && ValidUser(b.user)
    requires BatchBytes([a]) <= opt.memBound && BatchBytes([b]) <= opt.memBound < BatchBytes([a]) + BatchBytes([b])
    ensures var m1 := ApplyAll(map[], [a]);
            var m2 := ApplyAll(m1, [b]);
            && before == Read(m1, a.user) && after == None
            && readA == Read(m2, a.user) && readB == Read(m2, b.user) && later == Read(m2, a.user)
  {
    hide Good, Suits, BatchBytes, ApplyAll, HeldCount, Leads, SmallWrites, Inserts, Inv, AtRest, Stale, SnapAnswers,
         StoreAnswers, LowShares, VersionFiles, DbLocal.Configured, Limited, AlwaysLimited, Inserted;
    var db;
    db, before := OpenAndWrite(cfg, opt, hash, a, junk);
    ghost var s1, m1 := db.Value(), db.plain;
    FirstVersion(s1);
    RestLimited(opt, s1);
    ghost var steps := db.Insert([b], junk);
    RestLeads(cfg, opt, s1, m1, steps, db.Value());
    RestGood(cfg, opt, db.Value(), db.plain, db.files);
    after := db.GetAt(0, a.user, junk);
    BlindSnapshot(cfg, opt, s1, m1, [b], steps, db.Value(), 0, a.user, after);
    RestReads(cfg, opt, db.Value(), db.plain, a.user);
    RestReads(cfg, opt, db.Value(), db.plain, b.user);
    readA := db.Get(a.user, junk);
    readB := db.Get(b.user, junk);
    db.TakeSnapshot(1);
    later := db.GetAt(1, a.user, junk);
    SameAnswer(db.Value(), db.snaps[1], a.user, later, Read(db.plain, a.user));
  }

  lemma InitIs(cfg: TableConfig)
    ensures Inv(cfg, Init()) && Init().versions != [] && Init().memBytes == 0 && Init().nextSeq == 1
    ensures Init().snaps == map[]
    ensures HeldCount(Init()) == 0
  {
    hide Inv, HeldCount;
    InitHolds(cfg);
    InitBounded();
  }

  lemma SameAnswer(s: State, snap: Snapshot, user: Data, r: Option<Data>, r': Option<Data>)
    requires SnapAnswers(s, snap, user, r) && SnapAnswers(s, snap, user, r')
    ensures r == r'
  {}

  lemma FirstVersion(s: State)
    requires s.versions == [VersionRec(0, [])]
    ensures VersionFiles(s.versions, 0) == []
  {}

  /* ------------------------------------------------------------------ dropping a snapshot */

  // A snapshot is dropped and garbage is collected: what is left is the current version, those that another
  // snapshot pins, and their files.
  method Forget(db: DbLocal, k: nat)
    requires db.Valid() && db.versions != []
    modifies db
    ensures db.Valid() && k !in db.snaps && OthersStay(old(db.snaps), db.snaps, k)
    ensures OnlyPinnedStay(old(db.versions), old(db.snaps), k, db.versions)
    ensures forall f :: f in db.files <==> f in old(db.files) && exists v | v in db.versions :: f in v.files
  {
    hide Good, DbLocal.Configured, CollectGarbage, Store.DropSnapshot, HeldCount, OnlyPinnedStay, OthersStay;
    ghost var s := db.Value();
    StoredFiles(db.cfg, s, db.plain, db.files);
    db.DropSnapshot(k);
    StoredFiles(db.cfg, db.Value(), db.plain, db.files);
    CollectedSeq(db.Value());
    ghost var s' := db.DoGC(db.Value());
    StoredFiles(db.cfg, s', db.plain, db.files);
    DroppedMeans(db.cfg, s, k);
  }

  // Of the versions there were, the last one stays and those pinned by another snapshot than k.
  ghost predicate OnlyPinnedStay(before: seq<VersionRec>, snaps: map<nat, Snapshot>, k: nat, after: seq<VersionRec>) {
    && before != []
    && forall v :: v in after <==>
         v in before && (v == before[|before| - 1] || exists j | j in snaps && j != k :: snaps[j].version == v.id)
  }

  lemma CollectedSeq(s: State)
    ensures CollectGarbage(s).nextSeq == s.nextSeq
  {
    hide LiveVersions;
  }

  lemma StoredFiles(cfg: TableConfig, s: State, m: map<Data, Data>, files: map<FileId, DiskFile>)
    requires Good(cfg, s, m, files)
    ensures files.Keys == s.disk.Keys && Sound(cfg, s)
  {
    hide Sound, Agrees, Bounded;
  }

  lemma DroppedMeans(cfg: TableConfig, s: State, k: nat)
    requires Sound(cfg, s)
    ensures var s' := CollectGarbage(Store.DropSnapshot(s, k));
            && OnlyPinnedStay(s.versions, s.snaps, k, s'.versions)
            && forall f :: f in s'.disk <==> f in s.disk && exists v | v in s'.versions :: f in v.files
  {
    hide MemOk, DiskOk, SnapsOk, MemOverAll, CollectGarbage, Store.DropSnapshot, GoodVersion;
    DropReleases(s, k);
    forall id ensures OtherPins(s, k, id) <==> exists j | j in s.snaps && j != k :: s.snaps[j].version == id {}
  }

  /* ------------------------------------------------------------------ filling level 0 */

  // Counting in rounds of 2n.
  function Turn(x: nat, n: nat): (r: nat)
    requires n > 0
    ensures r < 2 * n
  {
    x % (2 * n)
  }

  // The number of files on level 0 after so many flushes of one file each, where a files are allowed: a
  // compaction is due at every (a-1)-st flush, but every second time there are not too many files yet.
  function OnLevelZero(a: nat, flushes: nat): (n: nat)
    requires a >= 2
    ensures n <= 2 * (a - 1)
  {
    if flushes == 0 then 0 else 1 + Turn(flushes - 1, a - 1)
  }

  lemma NextOnLevelZero(a: nat, flushes: nat)
    requires a >= 2
    ensures OnLevelZero(a, flushes + 1) ==
              if flushes % (a - 1) == 0 && a < OnLevelZero(a, flushes) + 1 then 1 else OnLevelZero(a, flushes) + 1
  {
    hide Turn;
    if flushes > 0 {
      DueMod(flushes, a - 1);
    } else {
      FirstTurn(a - 1);
    }
  }

  lemma FirstTurn(n: nat)
    requires n > 0
    ensures Turn(0, n) == 0
  {}

  lemma DueMod(x: nat, n: nat)
    requires x > 0 && n > 0
    ensures var r := Turn(x - 1, n);
            && Turn(x, n) == (if r + 1 == 2 * n then 0 else r + 1)
            && (x % n == 0 <==> r + 1 == 2 * n || r + 1 == n)
  {
    NextMod(x - 1, 2 * n);
    HalfMod(x, n);
  }

  lemma WrittenOne(s: State, w: Write)
    requires s.nextSeq < 0x1_0000_0000 && s.versions != []
    ensures var s' := PutAll(s, [w]);
            && s'.memBytes == s.memBytes + BatchBytes([w]) && s'.versions != [] && LevelSet(s', 0) == LevelSet(s, 0)
            && (s.mem == [] ==> |s'.mem| == 1)
  {
    hide BatchBytes, LevelSet;
    PutAllNumbered(s, [w]);
    assert PutAll(s, [w]) == PutAll(PutOne(s, w), []);
    SameLevel(s, PutAll(s, [w]), 0);
  }

  // A write that does not fit: the memtable's one entry becomes a file of level 0, which is compacted if a
  // compaction is due and there are too many.
  lemma FilledOnce(cfg: TableConfig, opt: Options, s: State, hint: nat, w: Write, steps: seq<Step>, s': State)
    requires Sound(cfg, s) && s.versions != [] && opt.allowed != [] && opt.allowed[0] >= 2 && |s.mem| == 1
    requires Inserted(cfg, opt, s, hint, [w], steps, s') && |steps| > 1
    ensures s'.versions != [] && |s'.mem| == 1 && s'.memBytes == BatchBytes([w])
    ensures var n := |LevelSet(s, 0)| + 1;
            |LevelSet(s', 0)| == if hint % (opt.allowed[0] - 1) == 0 && opt.allowed[0] < n then 1 else n
  {
    hide Sound, MakesRoom, PutAll, BatchBytes, LevelSet;
    var room, mid :| RoomThenWrite(cfg, opt, s, hint, [w], steps, s', room, mid);
    RoomEmpties(cfg, opt, s, Due(opt, hint), room, mid);
    RoomOneTable(cfg, opt, s, Due(opt, hint), room, mid);
    RoomLevelZero(cfg, opt, s, Due(opt, hint), room, mid);
    WrittenOne(mid, w);
  }

  ghost predicate FullWrites(opt: Options, ws: seq<Write>) {
    && 0 < |ws| <= MAX_HELD
    && (forall i | 0 <= i < |ws| :: SmallWrites([ws[i]]) && BatchBytes([ws[i]]) <= opt.memBound)
    && (forall i | 0 < i < |ws| :: opt.memBound < BatchBytes([ws[i - 1]]) + BatchBytes([ws[i]]))
  }

  // The store after k of the writes.
  ghost predicate FilledTo(opt: Options, ws: seq<Write>, k: nat, s: State, m: map<Data, Data>, hint: nat) {
    && k <= |ws| && s.versions != [] && s.nextSeq == k + 1 && HeldCount(s) <= k && m == ApplyAll(map[], ws[..k])
    && opt.allowed != [] && opt.allowed[0] >= 2
    && if k == 0 then s == Init() && hint == 0
       else
         && |s.mem| == 1 && s.memBytes == BatchBytes([ws[k - 1]]) && hint == k - 1
         && |LevelSet(s, 0)| == OnLevelZero(opt.allowed[0], k - 1)
  }

  // Every write but the first finds a full memtable. Plain reads see all writes, and level 0 has as many files
  // as the flushes so far leave there.
  method Fill(cfg: TableConfig, opt: Options, hash: Hash, ws: seq<Write>, junk: Junks) returns (db: DbLocal)
    requires Suits(cfg, hash) && SuitsToo(opt) && FullWrites(opt, ws)
    ensures fresh(db) && db.Valid() && db.plain == ApplyAll(map[], ws) && db.versions != []
    ensures |LevelSet(db.Value(), 0)| == OnLevelZero(opt.allowed[0], |ws| - 1)
  {
    hide Good, Suits, BatchBytes, ApplyAll, PutAll, HeldCount, Leads, SmallWrites, Inserts, Inv, LevelSet, Init,
         DbLocal.Configured, Limited, AlwaysLimited, Inserted, OnLevelZero, FilledTo;
    db := new DbLocal(cfg, opt, hash);
    FilledStart(cfg, opt, ws);
    for k := 0 to |ws|
      invariant fresh(db) && fresh(db.mem) && fresh(db.center) && db.cfg == cfg && db.opt == opt && db.Valid()
      invariant FilledTo(opt, ws, k, db.Value(), db.plain, db.forceGCHint)
    {
      ghost var s, m, hint := db.Value(), db.plain, db.forceGCHint;
      FilledRoom(opt, ws, k, s, m, hint);
      RestLimited(opt, s);
      GoodParts(cfg, s, m, db.files);
      ghost var steps := db.Insert([ws[k]], junk);
      FilledNext(cfg, opt, ws, k, s, m, hint, steps, db.Value());
    }
    FilledEnd(opt, ws, db.Value(), db.plain, db.forceGCHint);
  }

  lemma FilledStart(cfg: TableConfig, opt: Options, ws: seq<Write>)
    requires opt.allowed != [] && opt.allowed[0] >= 2
    ensures FilledTo(opt, ws, 0, Init(), map[], 0)
  {
    InitIs(cfg);
  }

  lemma FilledRoom(opt: Options, ws: seq<Write>, k: nat, s: State, m: map<Data, Data>, hint: nat)
    requires FullWrites(opt, ws) && FilledTo(opt, ws, k, s, m, hint) && k < |ws|
    ensures s.versions != [] && s.nextSeq == k + 1 && HeldCount(s) + 1 <= MAX_HELD && k + 2 < 0x1_0000_0000
    ensures SmallWrites([ws[k]]) && BatchBytes([ws[k]]) <= opt.memBound
  {
    hide HeldCount, BatchBytes, SmallWrites, LevelSet;
  }

  lemma FilledEnd(opt: Options, ws: seq<Write>, s: State, m: map<Data, Data>, hint: nat)
    requires FullWrites(opt, ws) && FilledTo(opt, ws, |ws|, s, m, hint)
    ensures m == ApplyAll(map[], ws) && s.versions != [] && opt.allowed != [] && opt.allowed[0] >= 2
    ensures |LevelSet(s, 0)| == OnLevelZero(opt.allowed[0], |ws| - 1)
  {
    hide HeldCount, BatchBytes, SmallWrites, LevelSet, OnLevelZero;
    assert ws[..|ws|] == ws;
  }

  lemma FilledNext(cfg: TableConfig, opt: Options, ws: seq<Write>, k: nat, s: State, m: map<Data, Data>, hint: nat,
                   steps: seq<Step>, s': State)
    requires FullWrites(opt, ws) && FilledTo(opt, ws, k, s, m, hint) && k < |ws| && Sound(cfg, s)
    requires Inserted(cfg, opt, s, hint, [ws[k]], steps, s') && s'.nextSeq == s.nextSeq + 1
    requires s'.versions != [] && HeldCount(s') <= HeldCount(s) + 1
    requires |steps| == 1 <==> s.memBytes + BatchBytes([ws[k]]) <= opt.memBound
    requires |steps| >= 1 && (|steps| == 1 ==> s.nextSeq + 1 <= 0x1_0000_0000 && s' == PutAll(s, [ws[k]]))
    ensures FilledTo(opt, ws, k + 1, s', ApplyAll(m, [ws[k]]), hint + if |steps| == 1 then 0 else 1)
  {
    hide HeldCount, BatchBytes, SmallWrites, LevelSet, Sound, Inserted, PutAll, ApplyAll, OnLevelZero;
    AppliedOne(ws, k);
    if k == 0 {
      StartsEmpty(opt.allowed[0]);
      WrittenOne(s, ws[0]);
    } else {
      FilledOnce(cfg, opt, s, hint, ws[k], steps, s');
      NextOnLevelZero(opt.allowed[0], k - 1);
    }
  }

  lemma StartsEmpty(a: nat)
    requires a >= 2
    ensures Init().versions != [] && |LevelSet(Init(), 0)| == OnLevelZero(a, 0) && Init().mem == []
    ensures Init().memBytes == 0
  {
    assert LevelSet(Init(), 0) == {};
  }

  lemma AppliedOne(ws: seq<Write>, k: nat)
    requires k < |ws|
    ensures ApplyAll(ApplyAll(map[], ws[..k]), [ws[k]]) == ApplyAll(map[], ws[..k + 1])
  {
    AppliedAll(map[], ws[..k], [ws[k]]);
    assert ws[..k] + [ws[k]] == ws[..k + 1];
  }

  lemma {:induction false} AppliedAll(m: map<Data, Data>, a: seq<Write>, b: seq<Write>)
    ensures ApplyAll(ApplyAll(m, a), b) == ApplyAll(m, a + b)
    decreases |a|
  {
    if a == [] {
      assert a + b == b;
    } else {
      assert (a + b)[1..] == a[1..] + b;
      AppliedAll(Apply(m, a[0]), a[1..], b);
    }
  }

  lemma NextMod(x: nat, n: nat)
    requires n > 0
    ensures (x + 1) % n == if x % n == n - 1 then 0 else x % n + 1
  {
    var q, r := x / n, x % n;
    assert x == q * n + r;
    if r == n - 1 {
      assert x + 1 == (q + 1) * n;
      ModIs(x + 1, q + 1, 0, n);
    } else {
      ModIs(x + 1, q, r + 1, n);
    }
  }

  lemma ModIs(x: nat, q: nat, r: nat, n: nat)
    requires n > r && x == q * n + r
    ensures x % n == r
  {
    var d := q - x / n;
    assert d * n == q * n - (x / n) * n;
    assert d >= 1 ==> (d - 1) * n >= 0;
    assert d <= -1 ==> (-d - 1) * n >= 0;
  }

  lemma HalfMod(x: nat, n: nat)
    requires n > 0
    ensures x % n == if x % (2 * n) < n then x % (2 * n) else x % (2 * n) - n
  {
    HalfIs(x, x / (2 * n), x % (2 * n), n);
  }

  lemma HalfIs(x: nat, q: nat, r: nat, n: nat)
    requires 2 * n > r && x == q * (2 * n) + r
    ensures x % n == if r < n then r else r - n
  {
    Doubled(q, n);
    if r < n {
      ModIs(x, 2 * q, r, n);
    } else {
      ModIs(x, 2 * q + 1, r - n, n);
    }
  }

  lemma Doubled(q: nat, n: nat)
    ensures q * (2 * n) == (2 * q) * n && (2 * q + 1) * n == (2 * q) * n + n
  {}
}
