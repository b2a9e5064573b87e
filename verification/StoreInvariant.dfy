/** The invariants of the store: what every step keeps, and the level invariant, which says which
    versions of a key lie above which others. */
module StoreInvariant {
  import opened Bytes
  import opened Keys
  import opened TableImages
  import opened TableLookup
  import opened TableReads
  import opened TableTheorems
  import opened Merging
  import opened TableWriting
  import opened Store
  import G = Guarding

  // Every version of a key in the first list is newer than every version of it in the second.
  predicate Newer(a: seq<Entry>, b: seq<Entry>) {
    forall x, y | x in a && y in b && x.key.user == y.key.user :: y.key.seqNo < x.key.seqNo
  }

  predicate Below(es: seq<Entry>, bound: nat) {
    forall e | e in es :: e.key.seqNo < bound
  }

  // A higher level, or the same level and written later.
  predicate Above(a: FileRec, b: FileRec) {
    a.level < b.level || (a.level == b.level && b.time < a.time)
  }

  ghost predicate GoodFile(cfg: TableConfig, r: FileRec, seqBound: nat, clock: nat) {
    WellFormed(cfg, r.parts) && Below(Contents(r), seqBound) && r.time < clock
  }

  // The files of a version: present, no two alike, of different levels or times, and no two with a
  // version of a key in common.
  ghost predicate GoodVersion(disk: map<FileId, FileRec>, files: seq<FileId>) {
    && G.NoDuplicates(files)
    && (forall f | f in files :: f in disk)
    && (forall f, g | f in files && g in files && f != g :: Above(disk[f], disk[g]) || Above(disk[g], disk[f]))
    && (forall f, g | f in files && g in files && f != g :: Apart(Contents(disk[f]), Contents(disk[g])))
  }

  // Files ordered by age, key by key: what lies above is newer.
  ghost predicate Layered(disk: map<FileId, FileRec>, files: seq<FileId>) {
    forall f, g | f in files && g in files && f in disk && g in disk && f != g && Above(disk[f], disk[g]) ::
      Newer(Contents(disk[f]), Contents(disk[g]))
  }

  ghost predicate MemAbove(s: State, files: seq<FileId>) {
    forall f | f in files :: f in s.disk && Newer(s.mem, Contents(s.disk[f]))
  }

  ghost predicate MemOverAll(s: State) {
    forall i | 0 <= i < |s.versions| :: MemAbove(s, s.versions[i].files)
  }

  predicate MemOk(s: State) {
    && KeySorted(s.mem) && Below(s.mem, s.nextSeq) && 1 <= s.nextSeq <= 0x1_0000_0000
    && (forall e | e in s.mem :: ValidUser(e.key.user) && e.value != Put([]))
  }

  ghost predicate DiskOk(cfg: TableConfig, s: State) {
    forall f | f in s.disk :: f < s.nextFile && GoodFile(cfg, s.disk[f], s.nextSeq, s.clock)
  }

  ghost predicate VersionsOk(s: State) {
    && s.versions != []
    && (forall i | 0 <= i < |s.versions| ::
          GoodVersion(s.disk, s.versions[i].files) && s.versions[i].id < s.nextVersion)
    && (forall i, j | 0 <= i < j < |s.versions| :: s.versions[i].id != s.versions[j].id)
  }

  // A snapshot pins a version whose entries are all visible to it.
  ghost predicate SnapsOk(s: State) {
    forall k | k in s.snaps ::
      && s.snaps[k].seqNo < s.nextSeq && HasVersion(s, s.snaps[k].version)
      && forall f | f in VersionFiles(s.versions, s.snaps[k].version) ::
           f in s.disk && Below(Contents(s.disk[f]), s.snaps[k].seqNo + 1)
  }

  // What every step of every run keeps, whatever is compacted.
  ghost predicate Sound(cfg: TableConfig, s: State) {
    MemOk(s) && DiskOk(cfg, s) && VersionsOk(s) && SnapsOk(s) && MemOverAll(s)
  }

  // The level invariant: the current version's files are moreover ordered by age.
  ghost predicate Inv(cfg: TableConfig, s: State) {
    Sound(cfg, s) && Layered(s.disk, Current(s))
  }

  lemma InitHolds(cfg: TableConfig)
    ensures Inv(cfg, Init())
  {}

  // The files of the current version are still the ones ordered by age.
  lemma SameLayers(s: State, s': State)
    requires s.versions != [] && s'.versions != [] && Current(s') == Current(s) && Layered(s.disk, Current(s))
    requires forall f | f in Current(s) && f in s'.disk :: f in s.disk && s'.disk[f] == s.disk[f]
    ensures Layered(s'.disk, Current(s'))
  {
    hide Newer, Above, Contents;
  }

  /* ------------------------------------------------------------- writing */

  lemma {:induction false} InsertHolds(mem: seq<Entry>, e: Entry)
    ensures forall x :: x in InsertSorted(mem, e) <==> x in mem || x == e
  {
    if mem != [] {
      var front, last := mem[..|mem| - 1], mem[|mem| - 1];
      InsertHolds(front, e);
      forall x ensures x in mem <==> x in front || x == last {}
    }
  }

  lemma SortedSnoc(es: seq<Entry>, e: Entry)
    requires KeySorted(es) && forall x | x in es :: KeyLess(x.key, e.key)
    ensures KeySorted(es + [e])
  {
    hide KeyLess;
    var all := es + [e];
    forall i, j | 0 <= i < j < |all| ensures KeyLess(all[i].key, all[j].key) {
      if j == |es| { assert all[i] == es[i]; assert es[i] in es; }
    }
  }

  lemma SortedFront(es: seq<Entry>)
    requires KeySorted(es) && es != []
    ensures KeySorted(es[..|es| - 1]) && forall x | x in es[..|es| - 1] :: KeyLess(x.key, es[|es| - 1].key)
  {
    hide KeyLess;
    var front := es[..|es| - 1];
    forall x | x in front ensures KeyLess(x.key, es[|es| - 1].key) {
      var i :| 0 <= i < |front| && front[i] == x;
      assert es[i] == x;
    }
  }

  lemma {:induction false} InsertSorts(mem: seq<Entry>, e: Entry)
    requires KeySorted(mem) && forall x | x in mem :: x.key != e.key
    ensures KeySorted(InsertSorted(mem, e))
  {
    hide KeyLess, KeySorted;
    if mem == [] {
      assert KeySorted([e]) by { assert |[e]| == 1; SingleSorted(e); }
    } else {
      var front, last := mem[..|mem| - 1], mem[|mem| - 1];
      SortedFront(mem);
      assert last in mem;
      if KeyLess(last.key, e.key) {
        forall x | x in mem ensures KeyLess(x.key, e.key) {
          if x != last { assert x in front; KeyOrderStrictTotal(x.key, last.key, e.key); }
        }
        SortedSnoc(mem, e);
      } else {
        KeyOrderStrictTotal(last.key, e.key, e.key);
        assert forall x | x in front :: x in mem;
        InsertSorts(front, e);
        InsertHolds(front, e);
        SortedSnoc(InsertSorted(front, e), last);
      }
    }
  }

  lemma SingleSorted(e: Entry)
    ensures KeySorted([e])
  {}

  ghost predicate GoodWrite(w: Write) {
    ValidEntry(Entry(SeqKey(0, w.user), w.value))
  }

  lemma PutOneKeeps(cfg: TableConfig, s: State, w: Write)
    requires Sound(cfg, s) && GoodWrite(w) && s.nextSeq < 0x1_0000_0000
    ensures Sound(cfg, PutOne(s, w)) && (Inv(cfg, s) ==> Inv(cfg, PutOne(s, w)))
  {
    hide KeySorted, WellFormed, GoodVersion, Contents, VersionFiles, HasVersion, Newer, Layered, Below;
    var s' := PutOne(s, w);
    var e := Entry(SeqKey(s.nextSeq, w.user), w.value);
    NotYet(s.mem, s.nextSeq);
    InsertSorts(s.mem, e);
    InsertHolds(s.mem, e);
    MoreBelow(s.mem, s.nextSeq, e);
    forall f | f in s.disk
      ensures GoodFile(cfg, s'.disk[f], s'.nextSeq, s'.clock)
      ensures Newer(s.mem, Contents(s.disk[f])) ==> Newer(s'.mem, Contents(s.disk[f]))
    {
      assert GoodFile(cfg, s.disk[f], s.nextSeq, s.clock);
      BelowMore(Contents(s.disk[f]), s.nextSeq);
      NewestOnTop(s.mem, e, Contents(s.disk[f]));
    }
    forall i | 0 <= i < |s.versions| ensures MemAbove(s', s.versions[i].files) {
      assert MemAbove(s, s.versions[i].files);
    }
    forall k | k in s'.snaps ensures HasVersion(s', s'.snaps[k].version) {
      SameVersions(s, s', s.snaps[k].version);
    }
  }

  lemma NotYet(mem: seq<Entry>, n: nat)
    requires Below(mem, n)
    ensures forall x | x in mem :: x.key.seqNo != n
  {}

  lemma MoreBelow(mem: seq<Entry>, n: nat, e: Entry)
    requires Below(mem, n) && e.key.seqNo == n
    ensures Below(InsertSorted(mem, e), n + 1)
  {
    InsertHolds(mem, e);
  }

  lemma BelowMore(es: seq<Entry>, n: nat)
    requires Below(es, n)
    ensures Below(es, n + 1)
  {}

  lemma NewestOnTop(mem: seq<Entry>, e: Entry, other: seq<Entry>)
    requires Below(other, e.key.seqNo)
    ensures Newer(mem, other) ==> Newer(InsertSorted(mem, e), other)
  {
    InsertHolds(mem, e);
  }

  lemma SameVersions(s: State, s': State, id: nat)
    requires s.versions == s'.versions
    ensures HasVersion(s, id) == HasVersion(s', id)
  {}

  /* ------------------------------------------------- installing new files */

  // What lets new tables join the files of the current version that stay: they share no version of a key.
  ghost predicate TablesFit(cfg: TableConfig, s: State, tables: seq<seq<seq<Entry>>>, gone: seq<FileId>)
    requires s.versions != []
  {
    && (forall t | 0 <= t < |tables| :: WellFormed(cfg, tables[t]) && Below(Flat(tables[t]), s.nextSeq))
    && (forall t, u | 0 <= t < u < |tables| :: Apart(Flat(tables[u]), Flat(tables[t])))
    && (forall f, t | f in Current(s) && f !in gone && f in s.disk && 0 <= t < |tables| ::
          Apart(Contents(s.disk[f]), Flat(tables[t])))
    && (forall f | f in gone :: f in s.disk)
  }

  // And what puts them above and below those files as the order by age demands.
  ghost predicate TablesLayered(s: State, level: nat, tables: seq<seq<seq<Entry>>>, gone: seq<FileId>)
    requires s.versions != []
  {
    && (forall t, u | 0 <= t < u < |tables| :: Newer(Flat(tables[u]), Flat(tables[t])))
    && (forall f, t | f in Current(s) && f !in gone && f in s.disk && 0 <= t < |tables| ::
          Placed(s.disk[f], level, Flat(tables[t])))
  }

  // A file that stays relates to a new table of this level, written after it, as the order of files demands.
  ghost predicate Placed(r: FileRec, level: nat, es: seq<Entry>) {
    if r.level < level then Newer(Contents(r), es) else Newer(es, Contents(r))
  }

  // Files with ids below the next one, listed once each, of which those to go are on disk.
  ghost predicate Replaceable(s: State, gone: seq<FileId>) {
    && s.versions != [] && (forall g | g in s.disk :: g < s.nextFile) && (forall g | g in gone :: g in s.disk)
    && (forall g | g in Current(s) :: g in s.disk) && G.NoDuplicates(Current(s))
  }

  lemma NewIdsMean(s: State, n: nat)
    ensures forall f :: f in NewIds(s, n) <==> s.nextFile <= f < s.nextFile + n
    ensures G.NoDuplicates(NewIds(s, n))
  {
    forall f | s.nextFile <= f < s.nextFile + n ensures f in NewIds(s, n) {
      assert NewIds(s, n)[f - s.nextFile] == f;
    }
  }

  // The files of the new version: the new ones, and the old ones that were not compacted, once each.
  lemma InstalledFiles(s: State, level: nat, tables: seq<seq<seq<Entry>>>, gone: seq<FileId>)
    requires Replaceable(s, gone)
    ensures var s' := Install(s, level, tables, gone);
            && s'.versions != [] && G.NoDuplicates(Current(s'))
            && forall f ::
                 f in Current(s') <==> s.nextFile <= f < s.nextFile + |tables| || (f in Current(s) && f !in gone)
  {
    hide G.WithDelta, NewIds, G.NoDuplicates;
    NewIdsMean(s, |tables|);
    var reps := Reps(s.disk + NewFiles(s, level, tables));
    G.DeltaNoDuplicates(reps, Current(s), NewIds(s, |tables|), gone);
  }

  // Where a file of the new version comes from.
  lemma InstalledFile(s: State, level: nat, tables: seq<seq<seq<Entry>>>, gone: seq<FileId>, f: FileId)
    requires Replaceable(s, gone) && f in Current(Install(s, level, tables, gone))
    ensures f in Install(s, level, tables, gone).disk
    ensures f < s.nextFile ==>
              f in Current(s) && f !in gone && f in s.disk && Install(s, level, tables, gone).disk[f] == s.disk[f]
    ensures f >= s.nextFile ==> f < s.nextFile + |tables|
    ensures f >= s.nextFile ==>
              Install(s, level, tables, gone).disk[f] ==
              FileRec(level, s.clock + (f - s.nextFile), tables[f - s.nextFile])
  {
    hide G.WithDelta, G.NoDuplicates, NewIds;
    InstalledFiles(s, level, tables, gone);
    NewIdsMean(s, |tables|);
  }

  lemma InstalledPair(cfg: TableConfig, s: State, level: nat, tables: seq<seq<seq<Entry>>>, gone: seq<FileId>,
                      f: FileId, g: FileId)
    requires DiskOk(cfg, s) && s.versions != [] && GoodVersion(s.disk, Current(s))
    requires TablesFit(cfg, s, tables, gone)
    requires f in Current(Install(s, level, tables, gone)) && g in Current(Install(s, level, tables, gone)) && f != g
    ensures var disk := Install(s, level, tables, gone).disk;
            && f in disk && g in disk
            && (Above(disk[f], disk[g]) || Above(disk[g], disk[f]))
            && Apart(Contents(disk[f]), Contents(disk[g]))
  {
    hide WellFormed, Apart, Below, Flat, Install, G.NoDuplicates;
    InstalledFile(s, level, tables, gone, f);
    InstalledFile(s, level, tables, gone, g);
    if f < s.nextFile && g >= s.nextFile {
      assert Apart(Contents(s.disk[f]), Flat(tables[g - s.nextFile]));
      FileTimes(cfg, s, f);
    } else if f >= s.nextFile && g < s.nextFile {
      assert Apart(Contents(s.disk[g]), Flat(tables[f - s.nextFile]));
      FileTimes(cfg, s, g);
      ApartEitherWay(Contents(s.disk[g]), Flat(tables[f - s.nextFile]));
    } else if f >= s.nextFile && g >= s.nextFile {
      var t, u := f - s.nextFile, g - s.nextFile;
      if t < u { ApartEitherWay(Flat(tables[u]), Flat(tables[t])); }
    }
  }

  lemma ApartEitherWay(a: seq<Entry>, b: seq<Entry>)
    requires Apart(a, b)
    ensures Apart(b, a)
  {}

  lemma FileTimes(cfg: TableConfig, s: State, f: FileId)
    requires DiskOk(cfg, s) && f in s.disk
    ensures f < s.nextFile && s.disk[f].time < s.clock
  {
    hide WellFormed, Below;
    assert GoodFile(cfg, s.disk[f], s.nextSeq, s.clock);
  }

  // The order by age of two files of the new version.
  lemma InstalledOrder(cfg: TableConfig, s: State, level: nat, tables: seq<seq<seq<Entry>>>, gone: seq<FileId>,
                       f: FileId, g: FileId)
    requires DiskOk(cfg, s) && Replaceable(s, gone) && Layered(s.disk, Current(s))
    requires TablesLayered(s, level, tables, gone)
    requires f in Current(Install(s, level, tables, gone)) && g in Current(Install(s, level, tables, gone)) && f != g
    requires var disk := Install(s, level, tables, gone).disk; f in disk && g in disk && Above(disk[f], disk[g])
    ensures var disk := Install(s, level, tables, gone).disk; Newer(Contents(disk[f]), Contents(disk[g]))
  {
    hide WellFormed, Newer, Flat, Install, G.NoDuplicates, DiskOk;
    InstalledFile(s, level, tables, gone, f);
    InstalledFile(s, level, tables, gone, g);
    if f < s.nextFile && g >= s.nextFile {
      FileTimes(cfg, s, f);
      assert Placed(s.disk[f], level, Flat(tables[g - s.nextFile]));
    } else if f >= s.nextFile && g < s.nextFile {
      FileTimes(cfg, s, g);
      assert Placed(s.disk[g], level, Flat(tables[f - s.nextFile]));
    }
  }

  lemma InstallLayers(cfg: TableConfig, s: State, level: nat, tables: seq<seq<seq<Entry>>>, gone: seq<FileId>)
    requires DiskOk(cfg, s) && Replaceable(s, gone) && Layered(s.disk, Current(s))
    requires TablesLayered(s, level, tables, gone)
    ensures var s' := Install(s, level, tables, gone); s'.versions != [] && Layered(s'.disk, Current(s'))
  {
    hide Newer, Flat, Above, Contents, Install, DiskOk, TablesLayered, G.NoDuplicates;
    var s' := Install(s, level, tables, gone);
    InstallHasVersion(s, level, tables, gone);
    forall f, g | f in Current(s') && g in Current(s') && f in s'.disk && g in s'.disk && f != g
        && Above(s'.disk[f], s'.disk[g])
      ensures Newer(Contents(s'.disk[f]), Contents(s'.disk[g]))
    {
      InstalledOrder(cfg, s, level, tables, gone, f, g);
    }
  }

  lemma InstallHasVersion(s: State, level: nat, tables: seq<seq<seq<Entry>>>, gone: seq<FileId>)
    requires s.versions != []
    ensures var s' := Install(s, level, tables, gone);
            && |s'.versions| == |s.versions| + 1 && s'.versions[..|s.versions|] == s.versions
            && s'.versions[|s.versions|].id == s.nextVersion && s'.nextVersion == s.nextVersion + 1
            && s'.mem == s.mem && s'.memBytes == s.memBytes && s'.nextSeq == s.nextSeq && s'.snaps == s.snaps
  {
    hide G.WithDelta;
  }

  lemma CurrentReplaceable(cfg: TableConfig, s: State, gone: seq<FileId>)
    requires DiskOk(cfg, s) && VersionsOk(s) && forall f | f in gone :: f in s.disk
    ensures s.versions != [] && Replaceable(s, gone) && GoodVersion(s.disk, Current(s))
  {
    hide WellFormed, Apart, Above, Contents, Below, G.NoDuplicates;
    assert GoodVersion(s.disk, s.versions[|s.versions| - 1].files);
  }

  lemma InstalledVersion(cfg: TableConfig, s: State, level: nat, tables: seq<seq<seq<Entry>>>, gone: seq<FileId>)
    requires DiskOk(cfg, s) && VersionsOk(s) && TablesFit(cfg, s, tables, gone)
    ensures var s' := Install(s, level, tables, gone); s'.versions != [] && GoodVersion(s'.disk, Current(s'))
  {
    hide WellFormed, Apart, Below, Flat, Above, Contents, Install, DiskOk, G.NoDuplicates, VersionsOk, Replaceable,
         GoodFile;
    CurrentReplaceable(cfg, s, gone);
    var s' := Install(s, level, tables, gone);
    InstallHasVersion(s, level, tables, gone);
    InstalledFiles(s, level, tables, gone);
    forall f | f in Current(s') ensures f in s'.disk {
      InstalledFile(s, level, tables, gone, f);
    }
    forall f, g | f in Current(s') && g in Current(s') && f != g
      ensures (Above(s'.disk[f], s'.disk[g]) || Above(s'.disk[g], s'.disk[f]))
      ensures Apart(Contents(s'.disk[f]), Contents(s'.disk[g]))
    {
      InstalledPair(cfg, s, level, tables, gone, f, g);
    }
  }

  lemma InstallKeeps(cfg: TableConfig, s: State, level: nat, tables: seq<seq<seq<Entry>>>, gone: seq<FileId>)
    requires DiskOk(cfg, s) && VersionsOk(s) && SnapsOk(s) && TablesFit(cfg, s, tables, gone)
    ensures var s' := Install(s, level, tables, gone); DiskOk(cfg, s') && VersionsOk(s') && SnapsOk(s')
  {
    hide WellFormed, Install, GoodVersion, DiskOk, SnapsOk, Below, Flat, Apart;
    var s' := Install(s, level, tables, gone);
    InstallHasVersion(s, level, tables, gone);
    InstalledDisk(cfg, s, level, tables, gone);
    InstalledVersion(cfg, s, level, tables, gone);
    forall i | 0 <= i < |s'.versions|
      ensures GoodVersion(s'.disk, s'.versions[i].files) && s'.versions[i].id < s'.nextVersion
    {
      if i < |s.versions| {
        assert s'.versions[i] == s.versions[i];
        OldVersion(s.disk, s'.disk, s.versions[i].files);
      }
    }
    forall i, j | 0 <= i < j < |s'.versions| ensures s'.versions[i].id != s'.versions[j].id {
      assert s'.versions[i] == s.versions[i];
      if j < |s.versions| { assert s'.versions[j] == s.versions[j]; }
    }
    assert s'.versions == s.versions + [s'.versions[|s.versions|]];
    InstalledSnaps(s, s');
  }

  lemma OldVersion(disk: map<FileId, FileRec>, disk': map<FileId, FileRec>, files: seq<FileId>)
    requires GoodVersion(disk, files) && forall f | f in disk :: f in disk' && disk'[f] == disk[f]
    ensures GoodVersion(disk', files)
  {
    hide Above, Apart, Contents, G.NoDuplicates;
  }

  lemma InstalledDisk(cfg: TableConfig, s: State, level: nat, tables: seq<seq<seq<Entry>>>, gone: seq<FileId>)
    requires DiskOk(cfg, s) && s.versions != []
    requires forall t | 0 <= t < |tables| :: WellFormed(cfg, tables[t]) && Below(Flat(tables[t]), s.nextSeq)
    ensures var s' := Install(s, level, tables, gone);
            DiskOk(cfg, s') && forall f | f in s.disk :: f in s'.disk && s'.disk[f] == s.disk[f]
  {
    hide WellFormed, Below, Flat, G.WithDelta;
    var s' := Install(s, level, tables, gone);
    forall f | f in s'.disk ensures f < s'.nextFile && GoodFile(cfg, s'.disk[f], s'.nextSeq, s'.clock) {
      if f in s.disk {
        assert f < s.nextFile && GoodFile(cfg, s.disk[f], s.nextSeq, s.clock);
      } else {
        assert f in NewIds(s, |tables|);
      }
    }
  }

  lemma {:induction false} VersionFilesPrefix(versions: seq<VersionRec>, more: seq<VersionRec>, id: nat)
    requires exists i | 0 <= i < |versions| :: versions[i].id == id
    ensures VersionFiles(versions + more, id) == VersionFiles(versions, id)
  {
    if versions[0].id != id {
      var i :| 0 <= i < |versions| && versions[i].id == id;
      assert versions[1..][i - 1].id == id;
      assert (versions + more)[1..] == versions[1..] + more;
      VersionFilesPrefix(versions[1..], more, id);
    }
  }

  lemma InstalledSnaps(s: State, s': State)
    requires SnapsOk(s) && s'.snaps == s.snaps && s'.nextSeq == s.nextSeq
    requires exists more :: s'.versions == s.versions + more
    requires forall f | f in s.disk :: f in s'.disk && s'.disk[f] == s.disk[f]
    ensures SnapsOk(s')
  {
    hide Below, Contents, VersionFiles;
    var more :| s'.versions == s.versions + more;
    forall k | k in s'.snaps
      ensures HasVersion(s', s'.snaps[k].version)
      ensures VersionFiles(s'.versions, s'.snaps[k].version) == VersionFiles(s.versions, s.snaps[k].version)
    {
      assert HasVersion(s, s.snaps[k].version);
      var i :| 0 <= i < |s.versions| && s.versions[i].id == s.snaps[k].version;
      assert s'.versions[i] == s.versions[i];
      VersionFilesPrefix(s.versions, more, s.snaps[k].version);
    }
  }

  /* ----------------------------------------------------------------- flush */

  lemma {:induction false} AllOf(tables: seq<seq<seq<Entry>>>, t: nat, e: Entry)
    requires t < |tables| && e in Flat(tables[t])
    ensures e in AllEntries(tables)
  {
    hide Flat;
    if t > 0 {
      assert tables[1..][t - 1] == tables[t];
      AllOf(tables[1..], t - 1, e);
    }
  }

  lemma {:induction false} LaterTablesNewer(tables: seq<seq<seq<Entry>>>, t: nat, u: nat)
    requires KeySorted(AllEntries(tables)) && t < u < |tables|
    ensures Newer(Flat(tables[u]), Flat(tables[t]))
  {
    hide KeyLess;
    var head, rest := Flat(tables[0]), AllEntries(tables[1..]);
    SortedHalves(head, rest);
    if t > 0 {
      LaterTablesNewer(tables[1..], t - 1, u - 1);
    } else {
      forall x, y | x in Flat(tables[u]) && y in head && x.key.user == y.key.user ensures y.key.seqNo < x.key.seqNo {
        AllOf(tables[1..], u - 1, x);
        var i :| 0 <= i < |head| && head[i] == y;
        var j :| 0 <= j < |rest| && rest[j] == x;
        KeyLessByUser(head[i].key, rest[j].key);
        UserOrderStrictTotal(y.key.user, y.key.user, y.key.user);
      }
    }
  }

  lemma NewerSubset(a: seq<Entry>, b: seq<Entry>, a': seq<Entry>, b': seq<Entry>)
    requires Newer(a, b) && (forall e | e in a' :: e in a) && (forall e | e in b' :: e in b)
    ensures Newer(a', b')
  {}

  lemma NewerIsApart(a: seq<Entry>, b: seq<Entry>)
    requires Newer(a, b)
    ensures Apart(a, b) && Apart(b, a)
  {}

  // The tables of a flushed memtable lie above all other files.
  lemma FlushedFit(cfg: TableConfig, s: State, tables: seq<seq<seq<Entry>>>)
    requires Sound(cfg, s) && AllEntries(tables) == s.mem && forall t | 0 <= t < |tables| :: WellFormed(cfg, tables[t])
    ensures s.versions != [] && TablesFit(cfg, s, tables, []) && TablesLayered(s, 0, tables, [])
  {
    hide WellFormed, Newer, Apart, Flat, KeySorted, Contents, DiskOk, SnapsOk, VersionsOk, MemOverAll, MemAbove, Below,
         AllEntries;
    CurrentMem(cfg, s);
    forall t | 0 <= t < |tables| ensures Below(Flat(tables[t]), s.nextSeq) {
      forall e | e in Flat(tables[t]) ensures e in s.mem { AllOf(tables, t, e); }
      BelowSubset(s.mem, Flat(tables[t]), s.nextSeq);
    }
    forall t, u | 0 <= t < u < |tables|
      ensures Newer(Flat(tables[u]), Flat(tables[t])) && Apart(Flat(tables[u]), Flat(tables[t]))
    {
      LaterTablesNewer(tables, t, u);
      NewerIsApart(Flat(tables[u]), Flat(tables[t]));
    }
    forall f, t | f in Current(s) && f in s.disk && 0 <= t < |tables|
      ensures Apart(Contents(s.disk[f]), Flat(tables[t])) && Placed(s.disk[f], 0, Flat(tables[t]))
    {
      FlushedOnTop(s, tables, f, t);
    }
  }

  lemma BelowSubset(all: seq<Entry>, es: seq<Entry>, n: nat)
    requires Below(all, n) && forall e | e in es :: e in all
    ensures Below(es, n)
  {}

  lemma FlushedOnTop(s: State, tables: seq<seq<seq<Entry>>>, f: FileId, t: nat)
    requires s.versions != [] && MemAbove(s, Current(s)) && AllEntries(tables) == s.mem && f in Current(s)
    requires t < |tables|
    ensures f in s.disk && Newer(Flat(tables[t]), Contents(s.disk[f])) && Apart(Contents(s.disk[f]), Flat(tables[t]))
  {
    hide Newer, Apart, Flat, Contents;
    forall e | e in Flat(tables[t]) ensures e in s.mem { AllOf(tables, t, e); }
    NewerSubset(s.mem, Contents(s.disk[f]), Flat(tables[t]), Contents(s.disk[f]));
    NewerIsApart(Flat(tables[t]), Contents(s.disk[f]));
  }

  lemma FlushKeeps(cfg: TableConfig, s: State, tables: seq<seq<seq<Entry>>>, s': State)
    requires Sound(cfg, s) && FlushStep(cfg, s, tables, s')
    ensures Sound(cfg, s') && (Inv(cfg, s) ==> Inv(cfg, s'))
  {
    hide WellFormed, Layered, DiskOk, VersionsOk, SnapsOk, MemOk, MemOverAll, Install, TablesFit, TablesLayered;
    var mid := s;
    if s.mem != [] {
      FlushedFit(cfg, s, tables);
      InstallKeeps(cfg, s, 0, tables, []);
      mid := Install(s, 0, tables, []);
      InstallHasVersion(s, 0, tables, []);
      CurrentReplaceable(cfg, s, []);
      if Inv(cfg, s) {
        InstallLayers(cfg, s, 0, tables, []);
      }
    }
    MemBound(s);
    EmptyMem(cfg, mid, s');
    if Inv(cfg, s) {
      SameLayers(mid, s');
    }
  }

  lemma MemBound(s: State)
    requires MemOk(s)
    ensures 1 <= s.nextSeq <= 0x1_0000_0000
  {
    hide KeySorted, Below;
  }

  lemma EmptyMem(cfg: TableConfig, s: State, s': State)
    requires DiskOk(cfg, s) && VersionsOk(s) && SnapsOk(s) && s' == s.(mem := [], memBytes := 0)
    requires 1 <= s.nextSeq <= 0x1_0000_0000
    ensures Sound(cfg, s')
  {
    hide WellFormed, GoodVersion, Contents, GoodFile, Below, VersionFiles;
    assert Below([], s.nextSeq) by { NothingBelow(s.nextSeq); }
    forall k | k in s'.snaps ensures HasVersion(s', s'.snaps[k].version) {
      SameVersions(s, s', s.snaps[k].version);
    }
    forall i | 0 <= i < |s'.versions| ensures MemAbove(s', s'.versions[i].files) {
      assert GoodVersion(s.disk, s.versions[i].files);
      CurrentOnDisk(s.disk, s.versions[i].files);
    }
  }

  lemma NothingBelow(n: nat)
    ensures Below([], n)
  {}

  lemma CurrentOnDisk(disk: map<FileId, FileRec>, files: seq<FileId>)
    requires GoodVersion(disk, files)
    ensures forall f | f in files :: f in disk
  {}

  /* ------------------------------------------------------------ compaction */

  // Every unselected file of the next level that shares a key with the selection lies below a
  // selected file that holds the key. A caller can check this before the merge.
  ghost predicate Harmless(s: State, l: nat, sel: seq<FileId>)
    requires s.versions != []
  {
    forall f, h, user | AtLevel(s, l + 1, f) && f !in sel && h in sel && h in s.disk
      && Occurs(Contents(s.disk[f]), user) && Occurs(Contents(s.disk[h]), user) :: SelectedAbove(s, sel, f, user)
  }

  ghost predicate SelectedAbove(s: State, sel: seq<FileId>, f: FileId, user: Data)
    requires f in s.disk
  {
    exists g :: g in sel && g in s.disk && Occurs(Contents(s.disk[g]), user) && Above(s.disk[g], s.disk[f])
  }

  // At levels 0 and 1, and whenever no file of the next level was pulled in, this is so by the policy.
  lemma LowLevelsAreHarmless(s: State, l: nat, byTime: seq<FileId>, pulled: seq<FileId>, ratio: real)
    requires Chosen(s, l, byTime, pulled) && 0.0 < ratio <= 1.0 && (l <= 1 || pulled == [])
    ensures Harmless(s, l, Selected(byTime, pulled, ratio))
  {
    hide Occurs, Contents, Overlap, OldestFirst;
    var sel := Selected(byTime, pulled, ratio);
    forall f, h, user | AtLevel(s, l + 1, f) && f !in sel && h in sel && h in s.disk
      && Occurs(Contents(s.disk[f]), user) && Occurs(Contents(s.disk[h]), user)
      ensures SelectedAbove(s, sel, f, user)
    {
      var i :| 0 <= i < |sel| && sel[i] == h;
      assert h == byTime[i];
      assert h in byTime;
      assert AtLevel(s, l, h);
      assert Above(s.disk[h], s.disk[f]);
    }
  }

  // What stays of the compacted level is younger than what was selected of it.
  lemma SelectedAreOldest(s: State, l: nat, byTime: seq<FileId>, pulled: seq<FileId>, ratio: real, h: FileId, f: FileId)
    requires Chosen(s, l, byTime, pulled) && 0.0 < ratio <= 1.0
    requires h in Selected(byTime, pulled, ratio) && f !in Selected(byTime, pulled, ratio) && AtLevel(s, l, f)
    ensures h in s.disk && h in Current(s) && Above(s.disk[f], s.disk[h])
  {
    var sel := Selected(byTime, pulled, ratio);
    var i := SelectedIndex(s, l, byTime, pulled, ratio, h);
    assert f in byTime;
    var j :| 0 <= j < |byTime| && byTime[j] == f;
    if i < |byTime| - 1 && byTime[i] == h {
      var k := if j < i then j else i;
      assert sel[k] == byTime[k] && sel[k] in sel;
    }
  }

  lemma SelectedIndex(s: State, l: nat, byTime: seq<FileId>, pulled: seq<FileId>, ratio: real, h: FileId)
    returns (i: nat)
    requires Chosen(s, l, byTime, pulled) && 0.0 < ratio <= 1.0 && h in Selected(byTime, pulled, ratio)
    ensures i < |Selected(byTime, pulled, ratio)| && Selected(byTime, pulled, ratio)[i] == h
    ensures (i < |byTime| - 1 && byTime[i] == h && AtLevel(s, l, h)) || (l > 1 && AtLevel(s, l + 1, h))
  {
    var sel, older := Selected(byTime, pulled, ratio), byTime[..|byTime| - 1];
    i :| 0 <= i < |sel| && sel[i] == h;
    assert (older + pulled)[i] == h;
    if i < |older| {
      assert h in byTime;
    } else {
      assert pulled[i - |older|] == h && h in pulled;
    }
  }

  // The selected files of the current version are merged and written out as these tables.
  ghost predicate Compacts(cfg: TableConfig, s: State, sel: seq<FileId>, tables: seq<seq<seq<Entry>>>) {
    && s.versions != [] && (forall f | f in sel :: f in s.disk && f in Current(s))
    && MergeWritten(cfg, Backwards(s, sel), tables)
  }

  lemma StepCompacts(cfg: TableConfig, opt: Options, s: State, l: nat, ratio: real,
                     byTime: seq<FileId>, pulled: seq<FileId>, tables: seq<seq<seq<Entry>>>, s': State)
    requires CompactStep(cfg, opt, s, l, ratio, byTime, pulled, tables, s')
    ensures byTime != [] && 0.0 < ratio <= 1.0 && l <= opt.maxLevel && NeedCompaction(opt, l, |byTime|, ratio)
    ensures var sel := Selected(byTime, pulled, ratio);
            Chosen(s, l, byTime, pulled) && Compacts(cfg, s, sel, tables) && s' == Install(s, l + 1, tables, sel)
  {
    hide MergeWritten, Backwards, Selected, Install, NeedCompaction, AtLevel, Overlap, OldestFirst;
    var sel := Selected(byTime, pulled, ratio);
    forall f | f in sel ensures f in Current(s) {
      SelectedCurrent(s, l, byTime, pulled, ratio, f);
    }
  }

  lemma CompactsSome(cfg: TableConfig, s: State, sel: seq<FileId>, tables: seq<seq<seq<Entry>>>)
    requires Compacts(cfg, s, sel, tables)
    ensures |sel| >= 2 && (forall f | f in sel :: f in s.disk && f in Current(s)) && s.versions != []
    ensures forall t | 0 <= t < |tables| :: WellFormed(cfg, tables[t])
    ensures KeySorted(AllEntries(tables))
  {
    hide MergeableTables, DevideAndConquerMerge, AllEntries, KeySorted, WellFormed;
    MergedSorted(Backwards(s, sel));
  }

  lemma SelectedEntry(s: State, sel: seq<FileId>, f: FileId, e: Entry)
    requires (forall g | g in sel :: g in s.disk) && f in sel && e in Contents(s.disk[f])
    ensures e in Flat(Backwards(s, sel))
  {
    hide Contents;
    var lists := Backwards(s, sel);
    var i :| 0 <= i < |sel| && sel[i] == f;
    ReverseReverses(Contents(s.disk[f]));
    assert e in lists[i];
    FlatHolds(lists, e);
  }

  // Everything in the outputs comes from a selected file, and is the newest selected version of its key.
  lemma OutputFrom(cfg: TableConfig, s: State, sel: seq<FileId>, tables: seq<seq<seq<Entry>>>, t: nat, e: Entry)
    returns (h: FileId)
    requires Compacts(cfg, s, sel, tables) && t < |tables| && e in Flat(tables[t])
    ensures h in sel && h in s.disk && e in Contents(s.disk[h])
    ensures forall g, x | g in sel && g in s.disk && x in Contents(s.disk[g]) && x.key.user == e.key.user ::
              x.key.seqNo <= e.key.seqNo
  {
    hide MergeWritten, Contents, Flat;
    var lists := Backwards(s, sel);
    MergedMeans(cfg, lists, tables, t, e);
    FlatHolds(lists, e);
    var i :| 0 <= i < |lists| && e in lists[i];
    h := sel[i];
    ReverseReverses(Contents(s.disk[h]));
    forall g, x | g in sel && g in s.disk && x in Contents(s.disk[g]) && x.key.user == e.key.user
      ensures x.key.seqNo <= e.key.seqNo
    {
      SelectedEntry(s, sel, g, x);
    }
  }

  lemma OutputNewer(cfg: TableConfig, s: State, sel: seq<FileId>, tables: seq<seq<seq<Entry>>>, t: nat,
                    other: seq<Entry>)
    requires Compacts(cfg, s, sel, tables) && t < |tables| && forall f | f in sel :: f in s.disk
    ensures (forall h | h in sel :: Newer(Contents(s.disk[h]), other)) ==> Newer(Flat(tables[t]), other)
    ensures (forall h | h in sel :: Newer(other, Contents(s.disk[h]))) ==> Newer(other, Flat(tables[t]))
    ensures (forall h | h in sel :: Apart(other, Contents(s.disk[h]))) ==> Apart(other, Flat(tables[t]))
  {
    hide Contents, Flat, Compacts;
    forall y | y in Flat(tables[t]) ensures exists h :: h in sel && y in Contents(s.disk[h]) {
      var h := OutputFrom(cfg, s, sel, tables, t, y);
    }
  }

  lemma StayPlaced(cfg: TableConfig, s: State, l: nat, byTime: seq<FileId>, pulled: seq<FileId>, ratio: real,
                   tables: seq<seq<seq<Entry>>>, f: FileId, t: nat)
    requires Sound(cfg, s) && Layered(s.disk, Current(s)) && byTime != [] && Chosen(s, l, byTime, pulled)
    requires 0.0 < ratio <= 1.0
    requires Compacts(cfg, s, Selected(byTime, pulled, ratio), tables)
    requires Harmless(s, l, Selected(byTime, pulled, ratio))
    requires f in Current(s) && f in s.disk && f !in Selected(byTime, pulled, ratio) && t < |tables|
    ensures Placed(s.disk[f], l + 1, Flat(tables[t]))
  {
    hide Compacts, Contents, Flat, Newer, DiskOk, SnapsOk, MemOk, MemOverAll, Selected, Harmless, Chosen, VersionsOk;
    var sel := Selected(byTime, pulled, ratio);
    CompactsSome(cfg, s, sel, tables);
    var r := s.disk[f];
    if r.level == l + 1 {
      OutputAboveNextLevel(cfg, s, l, sel, tables, f, t);
    } else {
      OutputNewer(cfg, s, sel, tables, t, Contents(r));
      forall h | h in sel ensures if r.level <= l then Above(r, s.disk[h]) else Above(s.disk[h], r) {
        SelectedCurrent(s, l, byTime, pulled, ratio, h);
        if r.level == l {
          SelectedAreOldest(s, l, byTime, pulled, ratio, h, f);
        }
      }
    }
  }

  // The outputs are newer than a file of their level that stays: by the harmlessness of the selection.
  lemma OutputAboveNextLevel(cfg: TableConfig, s: State, l: nat, sel: seq<FileId>, tables: seq<seq<seq<Entry>>>,
                             f: FileId, t: nat)
    requires Sound(cfg, s) && Layered(s.disk, Current(s)) && Compacts(cfg, s, sel, tables) && Harmless(s, l, sel)
    requires AtLevel(s, l + 1, f) && f !in sel && t < |tables|
    ensures Newer(Flat(tables[t]), Contents(s.disk[f]))
  {
    hide Compacts, Contents, Flat, Sound, Occurs, Newer, Above;
    CompactsSome(cfg, s, sel, tables);
    forall x, y | x in Flat(tables[t]) && y in Contents(s.disk[f]) && x.key.user == y.key.user
      ensures y.key.seqNo < x.key.seqNo
    {
      var h := OutputFrom(cfg, s, sel, tables, t, x);
      OccursIn(Contents(s.disk[h]), x);
      OccursIn(Contents(s.disk[f]), y);
      assert SelectedAbove(s, sel, f, x.key.user);
      var g :| g in sel && g in s.disk && Occurs(Contents(s.disk[g]), x.key.user) && Above(s.disk[g], s.disk[f]);
      var z := Occurrence(Contents(s.disk[g]), x.key.user);
      assert Newer(Contents(s.disk[g]), Contents(s.disk[f]));
      NewerOne(Contents(s.disk[g]), Contents(s.disk[f]), z, y);
    }
    PairwiseNewer(Flat(tables[t]), Contents(s.disk[f]));
  }

  lemma PairwiseNewer(a: seq<Entry>, b: seq<Entry>)
    requires forall x, y | x in a && y in b && x.key.user == y.key.user :: y.key.seqNo < x.key.seqNo
    ensures Newer(a, b)
  {}

  lemma NewerOne(a: seq<Entry>, b: seq<Entry>, x: Entry, y: Entry)
    requires Newer(a, b) && x in a && y in b && x.key.user == y.key.user
    ensures y.key.seqNo < x.key.seqNo
  {}

  lemma OccursIn(es: seq<Entry>, e: Entry)
    requires e in es
    ensures Occurs(es, e.key.user)
  {}

  lemma Occurrence(es: seq<Entry>, user: Data) returns (e: Entry)
    requires Occurs(es, user)
    ensures e in es && e.key.user == user
  {
    var i :| 0 <= i < |es| && es[i].key.user == user;
    e := es[i];
  }

  lemma SelectedCurrent(s: State, l: nat, byTime: seq<FileId>, pulled: seq<FileId>, ratio: real, h: FileId)
    requires Chosen(s, l, byTime, pulled) && 0.0 < ratio <= 1.0 && h in Selected(byTime, pulled, ratio)
    ensures h in Current(s) && h in s.disk && (s.disk[h].level == l || (l > 1 && s.disk[h].level == l + 1))
  {
    var i := SelectedIndex(s, l, byTime, pulled, ratio, h);
  }

  lemma MergedSorted(lists: seq<seq<Entry>>)
    requires lists != [] && MergeableTables(lists)
    ensures KeySorted(Reverse(DevideAndConquerMerge(lists)))
  {
    hide MergeableTables, KeyLess, KeySorted, Descending, MergeUp, HalvingTree;
    ReverseOrder(DevideAndConquerMerge(lists));
  }

  lemma FileBelow(cfg: TableConfig, s: State, h: FileId, e: Entry)
    requires DiskOk(cfg, s) && h in s.disk && e in Contents(s.disk[h])
    ensures e.key.seqNo < s.nextSeq
  {
    hide WellFormed;
  }

  // What the merge of some current files is written out to shares no version with the files that stay.
  lemma OutputsFit(cfg: TableConfig, s: State, sel: seq<FileId>, tables: seq<seq<seq<Entry>>>)
    requires Sound(cfg, s) && Compacts(cfg, s, sel, tables)
    ensures TablesFit(cfg, s, tables, sel)
    ensures forall t, u | 0 <= t < u < |tables| :: Newer(Flat(tables[u]), Flat(tables[t]))
  {
    hide WellFormed, Newer, Apart, Flat, KeySorted, Contents, Compacts, SnapsOk, DiskOk, MemOk, MemOverAll, VersionsOk,
         Below;
    CompactsSome(cfg, s, sel, tables);
    forall t | 0 <= t < |tables| ensures Below(Flat(tables[t]), s.nextSeq) {
      OutputBelow(cfg, s, sel, tables, t);
    }
    forall t, u | 0 <= t < u < |tables|
      ensures Newer(Flat(tables[u]), Flat(tables[t])) && Apart(Flat(tables[u]), Flat(tables[t]))
    {
      LaterTablesNewer(tables, t, u);
      NewerIsApart(Flat(tables[u]), Flat(tables[t]));
    }
    forall f, t | f in Current(s) && f !in sel && f in s.disk && 0 <= t < |tables|
      ensures Apart(Contents(s.disk[f]), Flat(tables[t]))
    {
      OutputApart(cfg, s, sel, tables, f, t);
    }
  }

  lemma OutputBelow(cfg: TableConfig, s: State, sel: seq<FileId>, tables: seq<seq<seq<Entry>>>, t: nat)
    requires DiskOk(cfg, s) && Compacts(cfg, s, sel, tables) && t < |tables|
    ensures Below(Flat(tables[t]), s.nextSeq)
  {
    hide Flat, Contents, Compacts, DiskOk;
    forall e | e in Flat(tables[t]) ensures e.key.seqNo < s.nextSeq {
      var h := OutputFrom(cfg, s, sel, tables, t, e);
      FileBelow(cfg, s, h, e);
    }
  }

  lemma OutputApart(cfg: TableConfig, s: State, sel: seq<FileId>, tables: seq<seq<seq<Entry>>>, f: FileId, t: nat)
    requires VersionsOk(s) && Compacts(cfg, s, sel, tables)
    requires f in Current(s) && f !in sel && f in s.disk && t < |tables|
    ensures Apart(Contents(s.disk[f]), Flat(tables[t]))
  {
    hide Flat, Contents, Compacts, Above, Apart, G.NoDuplicates;
    assert GoodVersion(s.disk, s.versions[|s.versions| - 1].files);
    CompactsSome(cfg, s, sel, tables);
    OutputNewer(cfg, s, sel, tables, t, Contents(s.disk[f]));
  }

  lemma OutputsLayered(cfg: TableConfig, s: State, l: nat, byTime: seq<FileId>, pulled: seq<FileId>, ratio: real,
                       tables: seq<seq<seq<Entry>>>)
    requires Inv(cfg, s) && s.versions != [] && byTime != [] && Chosen(s, l, byTime, pulled) && 0.0 < ratio <= 1.0
    requires Compacts(cfg, s, Selected(byTime, pulled, ratio), tables)
    requires Harmless(s, l, Selected(byTime, pulled, ratio))
    ensures TablesLayered(s, l + 1, tables, Selected(byTime, pulled, ratio))
  {
    hide Newer, Flat, Compacts, Selected, Chosen, Sound, Placed, Harmless, TablesFit;
    var sel := Selected(byTime, pulled, ratio);
    OutputsFit(cfg, s, sel, tables);
    forall f, t | f in Current(s) && f !in sel && f in s.disk && 0 <= t < |tables|
      ensures Placed(s.disk[f], l + 1, Flat(tables[t]))
    {
      StayPlaced(cfg, s, l, byTime, pulled, ratio, tables, f, t);
    }
  }

  // Merging and installing keeps what every step keeps, whatever current files are selected.
  lemma CompactSound(cfg: TableConfig, s: State, level: nat, sel: seq<FileId>, tables: seq<seq<seq<Entry>>>)
    requires s.versions != [] && Sound(cfg, s) && Compacts(cfg, s, sel, tables)
    ensures Sound(cfg, Install(s, level, tables, sel))
  {
    hide Compacts, Install, MemAbove, DiskOk, VersionsOk, SnapsOk, TablesFit, MemOk;
    var s' := Install(s, level, tables, sel);
    OutputsFit(cfg, s, sel, tables);
    InstallKeeps(cfg, s, level, tables, sel);
    InstallHasVersion(s, level, tables, sel);
    SameMemOk(s, s');
    forall i | 0 <= i < |s'.versions| ensures MemAbove(s', s'.versions[i].files) {
      if i < |s.versions| {
        assert s'.versions[i] == s.versions[i];
        OldMem(cfg, s, level, tables, sel, s.versions[i].files);
      } else {
        CompactedMem(cfg, s, level, sel, tables);
      }
    }
  }

  lemma OldMem(cfg: TableConfig, s: State, level: nat, tables: seq<seq<seq<Entry>>>, gone: seq<FileId>,
               files: seq<FileId>)
    requires DiskOk(cfg, s) && s.versions != [] && TablesFit(cfg, s, tables, gone) && MemAbove(s, files)
    ensures MemAbove(Install(s, level, tables, gone), files)
  {
    hide WellFormed, Newer, Below, Flat, Contents, Install, DiskOk;
    InstalledDisk(cfg, s, level, tables, gone);
    InstallHasVersion(s, level, tables, gone);
  }

  // The memtable is newer than the files of a compacted version too.
  lemma CompactedMem(cfg: TableConfig, s: State, level: nat, sel: seq<FileId>, tables: seq<seq<seq<Entry>>>)
    requires s.versions != [] && Sound(cfg, s) && Compacts(cfg, s, sel, tables)
    ensures var s' := Install(s, level, tables, sel); s'.versions != [] && MemAbove(s', Current(s'))
  {
    hide Newer, Contents, Install, Compacts, Sound, Replaceable;
    CurrentMem(cfg, s);
    CompactsSome(cfg, s, sel, tables);
    CurrentReplaceable(cfg, s, sel);
    InstallHasVersion(s, level, tables, sel);
    var s' := Install(s, level, tables, sel);
    forall f | f in Current(s') ensures f in s'.disk && Newer(s'.mem, Contents(s'.disk[f])) {
      CompactedFile(cfg, s, level, sel, tables, f);
    }
  }

  lemma CompactedFile(cfg: TableConfig, s: State, level: nat, sel: seq<FileId>, tables: seq<seq<seq<Entry>>>, f: FileId)
    requires s.versions != [] && Replaceable(s, sel) && MemAbove(s, Current(s)) && Compacts(cfg, s, sel, tables)
    requires f in Current(Install(s, level, tables, sel))
    ensures var s' := Install(s, level, tables, sel); f in s'.disk && Newer(s.mem, Contents(s'.disk[f]))
  {
    hide Newer, Contents, Install, Compacts, Replaceable;
    InstalledFile(s, level, tables, sel, f);
    if f >= s.nextFile {
      OutputMem(cfg, s, level, sel, tables, f - s.nextFile);
    }
  }

  lemma CurrentMem(cfg: TableConfig, s: State)
    requires Sound(cfg, s)
    ensures s.versions != [] && DiskOk(cfg, s) && VersionsOk(s) && MemAbove(s, Current(s))
  {
    hide DiskOk, SnapsOk, MemOk, MemAbove, GoodVersion;
    assert MemAbove(s, s.versions[|s.versions| - 1].files);
  }

  lemma OutputMem(cfg: TableConfig, s: State, level: nat, sel: seq<FileId>, tables: seq<seq<seq<Entry>>>, t: nat)
    requires s.versions != [] && Compacts(cfg, s, sel, tables) && MemAbove(s, Current(s)) && t < |tables|
    ensures Newer(s.mem, Contents(FileRec(level, s.clock + t, tables[t])))
  {
    hide Newer, Compacts, Contents, Flat;
    CompactsSome(cfg, s, sel, tables);
    OutputNewer(cfg, s, sel, tables, t, s.mem);
    ContentsOf(level, s.clock + t, tables[t]);
  }

  lemma ContentsOf(level: nat, time: nat, parts: seq<seq<Entry>>)
    ensures Contents(FileRec(level, time, parts)) == Flat(parts)
  {}

  // A compaction keeps the order by age as well, for every level, when the selection is harmless.
  lemma CompactKeeps(cfg: TableConfig, opt: Options, s: State, l: nat, ratio: real,
                     byTime: seq<FileId>, pulled: seq<FileId>, tables: seq<seq<seq<Entry>>>, s': State)
    requires Sound(cfg, s) && CompactStep(cfg, opt, s, l, ratio, byTime, pulled, tables, s')
    requires s.versions != [] && byTime != [] && 0.0 < ratio <= 1.0
    ensures Sound(cfg, s')
    ensures Inv(cfg, s) && Harmless(s, l, Selected(byTime, pulled, ratio)) ==> Inv(cfg, s')
  {
    hide CompactStep, Selected, Install, Harmless, TablesLayered, DiskOk, VersionsOk, SnapsOk, MemOk, MemOverAll,
         Layered, Compacts;
    StepCompacts(cfg, opt, s, l, ratio, byTime, pulled, tables, s');
    var sel := Selected(byTime, pulled, ratio);
    CompactSound(cfg, s, l + 1, sel, tables);
    if Inv(cfg, s) && Harmless(s, l, sel) {
      OutputsLayered(cfg, s, l, byTime, pulled, ratio, tables);
      CompactsSome(cfg, s, sel, tables);
      CurrentReplaceable(cfg, s, sel);
      InstallLayers(cfg, s, l + 1, tables, sel);
    }
  }

  // The merge's assertions hold: any two or more files of the current version can be merged.
  lemma FilesCanMerge(cfg: TableConfig, s: State, sel: seq<FileId>)
    requires Sound(cfg, s) && G.NoDuplicates(sel) && forall f | f in sel :: f in Current(s)
    ensures (forall f | f in sel :: f in s.disk) && MergeableTables(Backwards(s, sel))
  {
    hide WellFormed, Above, SnapsOk, KeySorted, Apart, Descending, Flat;
    assert GoodVersion(s.disk, s.versions[|s.versions| - 1].files);
    var lists := Backwards(s, sel);
    assert forall i | 0 <= i < |lists| :: lists[i] == Reverse(Contents(s.disk[sel[i]]));
    forall i | 0 <= i < |lists| ensures lists[i] != [] && Descending(lists[i]) {
      assert GoodFile(cfg, s.disk[sel[i]], s.nextSeq, s.clock);
      FileSorted(cfg, s.disk[sel[i]]);
      ReverseReverses(Contents(s.disk[sel[i]]));
      ReverseOrder(Contents(s.disk[sel[i]]));
    }
    forall i, j | 0 <= i < j < |lists| ensures Apart(lists[i], lists[j]) {
      assert sel[i] != sel[j];
      ApartBackwards(Contents(s.disk[sel[i]]), Contents(s.disk[sel[j]]));
    }
  }

  lemma ApartBackwards(a: seq<Entry>, b: seq<Entry>)
    requires Apart(a, b)
    ensures Apart(Reverse(a), Reverse(b))
  {
    ReverseReverses(a);
    ReverseReverses(b);
  }

  lemma FileSorted(cfg: TableConfig, r: FileRec)
    requires WellFormed(cfg, r.parts)
    ensures Contents(r) != [] && KeySorted(Contents(r)) && NonEmptyParts(r.parts)
  {
    TableNonEmpty(cfg, r.parts);
  }

  /* -------------------------------------------------- snapshots and garbage */

  lemma {:induction false} FindVersion(versions: seq<VersionRec>, i: nat)
    requires i < |versions| && forall a, b | 0 <= a < b < |versions| :: versions[a].id != versions[b].id
    ensures VersionFiles(versions, versions[i].id) == versions[i].files
  {
    if i > 0 {
      FindVersion(versions[1..], i - 1);
    }
  }

  lemma SnapshotKeeps(cfg: TableConfig, s: State, k: nat)
    requires Sound(cfg, s)
    ensures Sound(cfg, TakeSnapshot(s, k)) && (Inv(cfg, s) ==> Inv(cfg, TakeSnapshot(s, k)))
  {
    hide KeySorted, Below, GoodVersion, GoodFile, Layered, MemOverAll, SnapsOk;
    var s' := TakeSnapshot(s, k);
    TakenSnaps(cfg, s, k);
    SameMem(s, s');
    if Inv(cfg, s) { SameLayers(s, s'); }
  }

  lemma TakenSnaps(cfg: TableConfig, s: State, k: nat)
    requires Sound(cfg, s)
    ensures SnapsOk(TakeSnapshot(s, k))
  {
    hide WellFormed, KeySorted, Below, Contents, GoodVersion, VersionFiles, DiskOk, MemOverAll;
    var s' := TakeSnapshot(s, k);
    LatestVersion(cfg, s);
    SameVersions(s, s', s.versions[|s.versions| - 1].id);
    forall j | j in s'.snaps ensures HasVersion(s', s'.snaps[j].version) {
      if j != k { SameVersions(s, s', s.snaps[j].version); }
    }
  }

  lemma SameMem(s: State, s': State)
    requires MemOverAll(s) && s'.mem == s.mem && s'.disk == s.disk && s'.versions == s.versions
    ensures MemOverAll(s')
  {
    hide Newer, Contents;
    forall i | 0 <= i < |s'.versions| ensures MemAbove(s', s'.versions[i].files) {
      assert MemAbove(s, s.versions[i].files);
    }
  }

  lemma LatestVersion(cfg: TableConfig, s: State)
    requires Sound(cfg, s)
    ensures var id := s.versions[|s.versions| - 1].id;
            && HasVersion(s, id) && VersionFiles(s.versions, id) == Current(s)
            && forall f | f in Current(s) :: f in s.disk && Below(Contents(s.disk[f]), s.nextSeq)
  {
    hide WellFormed, Apart, Above, KeySorted, Flat, Below, Contents, VersionFiles, SnapsOk;
    var last := |s.versions| - 1;
    FindVersion(s.versions, last);
    assert GoodVersion(s.disk, s.versions[last].files);
    forall f | f in Current(s) ensures f in s.disk && Below(Contents(s.disk[f]), s.nextSeq) {
      assert GoodFile(cfg, s.disk[f], s.nextSeq, s.clock);
    }
  }

  lemma DropKeeps(cfg: TableConfig, s: State, k: nat)
    requires Sound(cfg, s)
    ensures Sound(cfg, DropSnapshot(s, k)) && (Inv(cfg, s) ==> Inv(cfg, DropSnapshot(s, k)))
  {
    hide KeySorted, Below, GoodVersion, GoodFile, Layered, MemOverAll, SnapsOk;
    var s' := DropSnapshot(s, k);
    DroppedSnaps(s, k);
    SameMem(s, s');
    if Inv(cfg, s) { SameLayers(s, s'); }
  }

  lemma DroppedSnaps(s: State, k: nat)
    requires SnapsOk(s)
    ensures SnapsOk(DropSnapshot(s, k))
  {
    hide Below, Contents, VersionFiles;
    var s' := DropSnapshot(s, k);
    forall j | j in s'.snaps ensures HasVersion(s', s.snaps[j].version) {
      SameVersions(s, s', s.snaps[j].version);
    }
  }

  lemma SameMemOk(s: State, s': State)
    requires MemOk(s) && s'.mem == s.mem && s'.nextSeq == s.nextSeq
    ensures MemOk(s')
  {
    hide KeySorted, Below;
  }

  lemma {:induction false} LiveMeans(s: State, versions: seq<VersionRec>)
    requires forall a, b | 0 <= a < b < |versions| :: versions[a].id != versions[b].id
    ensures var live := LiveVersions(s, versions);
            && (versions != [] ==> live != [] && live[|live| - 1] == versions[|versions| - 1])
            && (forall v :: v in live <==> v in versions && (Pinned(s, v.id) || v == versions[|versions| - 1]))
            && (forall a, b | 0 <= a < b < |live| :: live[a].id != live[b].id)
  {
    if |versions| >= 2 {
      hide Pinned, LiveVersions;
      var rest := LiveVersions(s, versions[1..]);
      DistinctRest(versions);
      LiveMeans(s, versions[1..]);
      LiveStep(s, versions);
      LiveMembers(s, versions, rest);
      DistinctPrepend(versions[0], rest);
    }
  }

  lemma LiveMembers(s: State, versions: seq<VersionRec>, rest: seq<VersionRec>)
    requires |versions| >= 2 && versions[|versions| - 1] != versions[0]
    requires forall v :: v in rest <==> v in versions[1..] && (Pinned(s, v.id) || v == versions[|versions| - 1])
    ensures var live := (if Pinned(s, versions[0].id) then [versions[0]] else []) + rest;
            forall v :: v in live <==> v in versions && (Pinned(s, v.id) || v == versions[|versions| - 1])
  {
    hide Pinned;
    forall v ensures v in versions <==> v == versions[0] || v in versions[1..] {}
  }

  lemma LiveStep(s: State, versions: seq<VersionRec>)
    requires |versions| >= 2
    ensures LiveVersions(s, versions) == (if Pinned(s, versions[0].id) then [versions[0]] else []) +
              LiveVersions(s, versions[1..])
  {}

  lemma DistinctPrepend(v: VersionRec, rest: seq<VersionRec>)
    requires forall a, b | 0 <= a < b < |rest| :: rest[a].id != rest[b].id
    requires forall w | w in rest :: w.id != v.id
    ensures forall a, b | 0 <= a < b < |[v] + rest| :: ([v] + rest)[a].id != ([v] + rest)[b].id
  {
    var all := [v] + rest;
    forall a, b | 0 <= a < b < |all| ensures all[a].id != all[b].id {
      assert all[b] == rest[b - 1];
      assert all[b] in rest;
    }
  }

  lemma DistinctRest(versions: seq<VersionRec>)
    requires versions != [] && forall a, b | 0 <= a < b < |versions| :: versions[a].id != versions[b].id
    ensures forall a, b | 0 <= a < b < |versions[1..]| :: versions[1..][a].id != versions[1..][b].id
    ensures forall v | v in versions[1..] :: v.id != versions[0].id
  {
    forall v | v in versions[1..] ensures v.id != versions[0].id {
      var i :| 0 <= i < |versions[1..]| && versions[1..][i] == v;
      assert versions[i + 1] == v;
    }
  }

  // Collection leaves exactly the versions a snapshot pins and the current one, and exactly the files
  // of those.
  lemma CollectMeans(s: State)
    requires VersionsOk(s)
    ensures var s' := CollectGarbage(s);
            && (forall v ::
                  v in s'.versions <==> v in s.versions && (Pinned(s, v.id) || v == s.versions[|s.versions| - 1]))
            && (forall f :: f in s'.disk <==> f in s.disk && exists v | v in s'.versions :: f in v.files)
            && s'.versions != [] && Current(s') == Current(s)
  {
    hide GoodVersion, Pinned, LiveVersions;
    LiveMeans(s, s.versions);
    var s' := CollectGarbage(s);
    forall f ensures f in s'.disk <==> f in s.disk && exists v | v in s'.versions :: f in v.files {
      if f in s.disk && exists v | v in s'.versions :: f in v.files {
        var v :| v in s'.versions && f in v.files;
        var i :| 0 <= i < |s'.versions| && s'.versions[i] == v;
      }
    }
  }

  // What dropping a snapshot is for: the next collection leaves only the current version and those that another
  // snapshot pins, and only their files.
  lemma DropReleases(s: State, k: nat)
    requires VersionsOk(s)
    ensures var s' := CollectGarbage(DropSnapshot(s, k));
            && (forall v ::
                  v in s'.versions <==> v in s.versions && (v == s.versions[|s.versions| - 1] || OtherPins(s, k, v.id)))
            && (forall f :: f in s'.disk <==> f in s.disk && exists v | v in s'.versions :: f in v.files)
            && s'.versions != [] && Current(s') == Current(s)
  {
    hide GoodVersion, CollectGarbage;
    CollectMeans(DropSnapshot(s, k));
    forall id ensures Pinned(DropSnapshot(s, k), id) <==> OtherPins(s, k, id) {
      if OtherPins(s, k, id) {
        var j :| j in s.snaps && j != k && s.snaps[j].version == id;
        assert j in DropSnapshot(s, k).snaps;
      }
    }
  }

  // Some other snapshot than k pins the version.
  predicate OtherPins(s: State, k: nat, id: nat) {
    exists j | j in s.snaps && j != k :: s.snaps[j].version == id
  }

  lemma CollectKeeps(cfg: TableConfig, s: State)
    requires Sound(cfg, s)
    ensures Sound(cfg, CollectGarbage(s)) && (Inv(cfg, s) ==> Inv(cfg, CollectGarbage(s)))
  {
    hide GoodFile, Pinned, CollectGarbage, GoodVersion, MemOk, Layered, SnapsOk, MemAbove;
    var s' := CollectGarbage(s);
    LiveMeans(s, s.versions);
    CollectMeans(s);
    CollectFrame(s);
    forall i | 0 <= i < |s'.versions|
      ensures GoodVersion(s'.disk, s'.versions[i].files) && s'.versions[i].id < s'.nextVersion
      ensures MemAbove(s', s'.versions[i].files)
    {
      CollectedFiles(s, i);
    }
    SameMemOk(s, s');
    CollectedSnaps(s);
    if Inv(cfg, s) { SameLayers(s, s'); }
  }

  // A version that stays is as good as it was.
  lemma CollectedFiles(s: State, i: nat)
    requires VersionsOk(s) && MemOverAll(s) && i < |CollectGarbage(s).versions|
    ensures var s' := CollectGarbage(s);
            && GoodVersion(s'.disk, s'.versions[i].files) && s'.versions[i].id < s.nextVersion
            && MemAbove(s', s'.versions[i].files)
  {
    hide Newer, Contents, Pinned, CollectGarbage, GoodVersion, Current;
    var s' := CollectGarbage(s);
    CollectMeans(s);
    CollectFrame(s);
    var v := s'.versions[i];
    assert v in s.versions;
    var j :| 0 <= j < |s.versions| && s.versions[j] == v;
    assert MemAbove(s, s.versions[j].files);
    forall f | f in v.files && f in s.disk ensures f in s'.disk {
      assert v in s'.versions;
    }
    LiveFiles(s.disk, s'.disk, v.files);
    CurrentOnDisk(s'.disk, v.files);
  }

  lemma CollectFrame(s: State)
    ensures var s' := CollectGarbage(s);
            && s' == s.(versions := s'.versions, disk := s'.disk)
            && s'.versions == LiveVersions(s, s.versions)
            && forall f | f in s'.disk :: s'.disk[f] == s.disk[f]
  {}

  lemma LiveFiles(disk: map<FileId, FileRec>, disk': map<FileId, FileRec>, files: seq<FileId>)
    requires GoodVersion(disk, files) && (forall f | f in files && f in disk :: f in disk' && disk'[f] == disk[f])
    ensures GoodVersion(disk', files)
  {
    hide Above, Apart, Contents, G.NoDuplicates;
  }

  lemma CollectedVersion(s: State, id: nat)
    requires VersionsOk(s) && HasVersion(s, id) && Pinned(s, id)
    ensures HasVersion(CollectGarbage(s), id)
    ensures VersionFiles(CollectGarbage(s).versions, id) == VersionFiles(s.versions, id)
    ensures forall f | f in VersionFiles(s.versions, id) && f in s.disk :: f in CollectGarbage(s).disk
  {
    hide GoodVersion, Pinned, VersionFiles, CollectGarbage;
    LiveMeans(s, s.versions);
    CollectMeans(s);
    CollectFrame(s);
    var s' := CollectGarbage(s);
    var i :| 0 <= i < |s.versions| && s.versions[i].id == id;
    FindVersion(s.versions, i);
    assert s.versions[i] in s'.versions;
    var j :| 0 <= j < |s'.versions| && s'.versions[j] == s.versions[i];
    FindVersion(s'.versions, j);
  }

  lemma CollectedSnaps(s: State)
    requires VersionsOk(s) && SnapsOk(s)
    ensures SnapsOk(CollectGarbage(s))
  {
    hide GoodVersion, VersionFiles, Below, Contents, CollectGarbage;
    CollectFrame(s);
    var s' := CollectGarbage(s);
    forall k | k in s'.snaps
      ensures HasVersion(s', s'.snaps[k].version)
      ensures forall f | f in VersionFiles(s'.versions, s'.snaps[k].version) ::
                f in s'.disk && Below(Contents(s'.disk[f]), s'.snaps[k].seqNo + 1)
    {
      assert Pinned(s, s.snaps[k].version);
      CollectedVersion(s, s.snaps[k].version);
    }
  }
}
