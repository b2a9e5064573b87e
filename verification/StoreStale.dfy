/** Exactly which steps make a read stale: a compaction strands a key when it moves the newest version
    of the key below a file of its level that stays and holds the key as well. */
module StoreStale {
  import opened Bytes
  import opened Keys
  import opened TableImages
  import opened TableLookup
  import opened TableTheorems
  import opened TableWriting
  import opened Store
  import opened StoreInvariant
  import opened StoreRefinement

  // The newest version of the key lies in a selected file of level l, and an unselected file of that
  // level holds the key. A caller can check this before the merge.
  ghost predicate Strands(s: State, l: nat, sel: seq<FileId>, user: Data)
    requires s.versions != []
  {
    exists h, y, f :: StrandedBy(s, l, sel, user, h, y, f)
  }

  ghost predicate StrandedBy(s: State, l: nat, sel: seq<FileId>, user: Data, h: FileId, y: Entry, f: FileId)
    requires s.versions != []
  {
    && h in sel && AtLevel(s, l, h) && y in Contents(s.disk[h]) && y.key.user == user && IsTop(s, y)
    && AtLevel(s, l, f) && f !in sel && Occurs(Contents(s.disk[f]), user)
  }

  // The newest version of a key is kept by the merge.
  lemma TopIsWritten(cfg: TableConfig, s: State, sel: seq<FileId>, tables: seq<seq<seq<Entry>>>, h: FileId, y: Entry)
    returns (t: nat)
    requires s.versions != [] && Sound(cfg, s) && Compacts(cfg, s, sel, tables)
    requires h in sel && h in s.disk && y in Contents(s.disk[h]) && IsTop(s, y)
    ensures t < |tables| && y in Flat(tables[t])
  {
    hide Sound, Compacts, Contents, Flat, AllEntries;
    var k;
    t, k := MergedVersion(cfg, s, sel, tables, h, y);
    CompactedHeld(cfg, s, sel, tables, k);
    SameTop(cfg, s, y, k) by { TopAsNew(s, y, k); }
  }

  lemma TopAsNew(s: State, y: Entry, k: Entry)
    requires s.versions != [] && IsTop(s, y) && Holds(s, k) && k.key.user == y.key.user && y.key.seqNo <= k.key.seqNo
    ensures IsTop(s, k) && Holds(s, y)
  {
    hide Holds;
  }

  lemma StrandedIsBuried(cfg: TableConfig, s: State, l: nat, sel: seq<FileId>, tables: seq<seq<seq<Entry>>>, user: Data,
                         h: FileId, y: Entry, f: FileId)
    requires s.versions != [] && Sound(cfg, s) && Compacts(cfg, s, sel, tables) && StrandedBy(s, l, sel, user, h, y, f)
    ensures var s' := Install(s, l + 1, tables, sel); s'.versions != [] && Stale(s', user)
  {
    hide Sound, Compacts, Install, Contents, Flat, IsTop, Replaceable, Occurs;
    var s' := Install(s, l + 1, tables, sel);
    var t := TopIsWritten(cfg, s, sel, tables, h, y);
    CompactTops(cfg, s, l + 1, sel, tables);
    CompactReplaces(cfg, s, sel, tables);
    NewFileThere(s, l + 1, tables, sel, t);
    ContentsOf(l + 1, s.clock + t, tables[t]);
    OldFileThere(s, l + 1, tables, sel, f);
    assert Buried(s', user, f, s.nextFile + t, y);
  }

  // Where a file of the new version has a version of the key from: a file that was there, on the same
  // level if it stayed, on the compacted level or the next one if it was merged.
  lemma Origin(cfg: TableConfig, s: State, l: nat, sel: seq<FileId>, tables: seq<seq<seq<Entry>>>, f: FileId, e: Entry)
    returns (g: FileId)
    requires s.versions != [] && Compacts(cfg, s, sel, tables) && Replaceable(s, sel)
    requires forall h | h in sel && h in s.disk :: l <= s.disk[h].level <= l + 1
    requires var s' := Install(s, l + 1, tables, sel); f in Current(s') && f in s'.disk && e in Contents(s'.disk[f])
    ensures g in Current(s) && g in s.disk && e in Contents(s.disk[g])
    ensures var s' := Install(s, l + 1, tables, sel);
            && s.disk[g].level <= s'.disk[f].level
            && (g !in sel ==> g == f && s.disk[g].level == s'.disk[f].level)
            && (g in sel ==> s'.disk[f].level == l + 1)
  {
    hide Compacts, Install, Contents, Flat;
    InstalledFile(s, l + 1, tables, sel, f);
    if f < s.nextFile {
      g := f;
    } else {
      var t := f - s.nextFile;
      ContentsOf(l + 1, s.clock + t, tables[t]);
      g := OutputFrom(cfg, s, sel, tables, t, e);
      CompactsSome(cfg, s, sel, tables);
    }
  }

  lemma BuriedWasStranded(cfg: TableConfig, s: State, l: nat, sel: seq<FileId>, tables: seq<seq<seq<Entry>>>,
                          user: Data,
                          f: FileId, g: FileId, y: Entry)
    requires s.versions != [] && Sound(cfg, s) && Compacts(cfg, s, sel, tables) && !Stale(s, user)
    requires forall h | h in sel && h in s.disk :: l <= s.disk[h].level <= l + 1
    requires var s' := Install(s, l + 1, tables, sel); s'.versions != [] && Buried(s', user, f, g, y)
    ensures Strands(s, l, sel, user)
  {
    hide Sound, Compacts, Install, Contents, IsTop, Replaceable, Occurs;
    var s' := Install(s, l + 1, tables, sel);
    CompactTops(cfg, s, l + 1, sel, tables);
    CompactReplaces(cfg, s, sel, tables);
    var x := Occurrence(Contents(s'.disk[f]), user);
    var f0 := Origin(cfg, s, l, sel, tables, f, x);
    var g0 := Origin(cfg, s, l, sel, tables, g, y);
    OccursIn(Contents(s.disk[f0]), x);
    assert !Buried(s, user, f0, g0, y);
    assert StrandedBy(s, l, sel, user, g0, y, f0);
  }

  // A compaction makes a key stale that was not, if and only if it strands the key.
  lemma StrandsExact(cfg: TableConfig, s: State, l: nat, sel: seq<FileId>, tables: seq<seq<seq<Entry>>>, user: Data)
    requires s.versions != [] && Sound(cfg, s) && Compacts(cfg, s, sel, tables) && !Stale(s, user)
    requires forall h | h in sel && h in s.disk :: l <= s.disk[h].level <= l + 1
    ensures var s' := Install(s, l + 1, tables, sel);
              s'.versions != [] && (Stale(s', user) <==> Strands(s, l, sel, user))
  {
    hide Sound, Compacts, Install, StrandedBy, Buried;
    InstallHasVersion(s, l + 1, tables, sel);
    var s' := Install(s, l + 1, tables, sel);
    if Strands(s, l, sel, user) {
      var h, y, f :| StrandedBy(s, l, sel, user, h, y, f);
      StrandedIsBuried(cfg, s, l, sel, tables, user, h, y, f);
    }
    if Stale(s', user) {
      var f, g, y :| Buried(s', user, f, g, y);
      BuriedWasStranded(cfg, s, l, sel, tables, user, f, g, y);
    }
  }

  lemma StepStrandsExact(cfg: TableConfig, opt: Options, s: State, l: nat, ratio: real,
                         byTime: seq<FileId>, pulled: seq<FileId>, tables: seq<seq<seq<Entry>>>, s': State, user: Data)
    requires s.versions != [] && Sound(cfg, s) && !Stale(s, user) && byTime != [] && 0.0 < ratio <= 1.0
    requires CompactStep(cfg, opt, s, l, ratio, byTime, pulled, tables, s')
    ensures s'.versions != [] && (Stale(s', user) <==> Strands(s, l, Selected(byTime, pulled, ratio), user))
  {
    hide Sound, Compacts, Install, Strands, Stale, CompactStep, Selected, Chosen;
    StepCompacts(cfg, opt, s, l, ratio, byTime, pulled, tables, s');
    var sel := Selected(byTime, pulled, ratio);
    forall h | h in sel && h in s.disk ensures l <= s.disk[h].level <= l + 1 {
      SelectedCurrent(s, l, byTime, pulled, ratio, h);
    }
    StrandsExact(cfg, s, l, sel, tables, user);
  }

  // As long as the files are ordered by age, no compaction strands a key.
  lemma LayeredNotStranded(cfg: TableConfig, s: State, l: nat, byTime: seq<FileId>, pulled: seq<FileId>, ratio: real,
                           user: Data)
    requires Inv(cfg, s) && s.versions != [] && byTime != [] && Chosen(s, l, byTime, pulled) && 0.0 < ratio <= 1.0
    ensures !Strands(s, l, Selected(byTime, pulled, ratio), user)
  {
    hide Sound, Contents, Newer, Selected, Chosen, Occurs, Above;
    var sel := Selected(byTime, pulled, ratio);
    forall h, y, f ensures !StrandedBy(s, l, sel, user, h, y, f) {
      if StrandedBy(s, l, sel, user, h, y, f) {
        SelectedAreOldest(s, l, byTime, pulled, ratio, h, f);
        var x := Occurrence(Contents(s.disk[f]), user);
        NewerPair(Contents(s.disk[f]), Contents(s.disk[h]), x, y);
        NotTop(s, f, x, y);
      }
    }
  }

  lemma NotTop(s: State, f: FileId, x: Entry, y: Entry)
    requires s.versions != [] && f in Current(s) && f in s.disk && x in Contents(s.disk[f])
    requires x.key.user == y.key.user && y.key.seqNo < x.key.seqNo
    ensures !IsTop(s, y)
  {
    hide Contents;
    assert Holds(s, x);
  }

  /* ------------------------------------------------------- all other steps make nothing stale */

  lemma SameFilesSameStale(s: State, s': State, user: Data)
    requires s.versions != [] && s'.versions != [] && Current(s') == Current(s)
    requires forall f | f in Current(s) && f in s'.disk :: f in s.disk && s'.disk[f] == s.disk[f]
    requires forall e :: IsTop(s, e) <==> IsTop(s', e)
    ensures Stale(s', user) ==> Stale(s, user)
  {
    hide IsTop, Contents, Occurs;
    if f, g, y :| Buried(s', user, f, g, y) {
      assert Buried(s, user, f, g, y);
    }
  }

  lemma PutOneNotStale(cfg: TableConfig, s: State, w: Write, user: Data)
    requires Sound(cfg, s) && s.versions != [] && s.nextSeq < 0x1_0000_0000 && !Stale(s, user)
    ensures !Stale(PutOne(s, w), user)
  {
    hide Sound, IsTop, Contents, Occurs, Stale;
    var s' := PutOne(s, w);
    forall f, g, y ensures !Buried(s', user, f, g, y) {
      if Buried(s', user, f, g, y) {
        PutOneTops(cfg, s, w, y);
        WasHeld(s, g, y);
        HeldBelow(cfg, s, y);
        BuriedIsStale(s, user, f, g, y);
      }
    }
    NotBuried(s', user);
  }

  lemma WasHeld(s: State, g: FileId, y: Entry)
    requires s.versions != [] && g in Current(s) && g in s.disk && y in Contents(s.disk[g])
    ensures Holds(s, y)
  {}

  lemma BuriedIsStale(s: State, user: Data, f: FileId, g: FileId, y: Entry)
    requires s.versions != [] && Buried(s, user, f, g, y)
    ensures Stale(s, user)
  {}

  lemma NotBuried(s: State, user: Data)
    requires s.versions != [] && forall f, g, y :: !Buried(s, user, f, g, y)
    ensures !Stale(s, user)
  {
    hide Buried;
  }

  lemma {:induction false} PutAllNotStale(cfg: TableConfig, s: State, batch: seq<Write>, user: Data)
    requires Sound(cfg, s) && s.versions != [] && s.nextSeq + |batch| <= 0x1_0000_0000 && !Stale(s, user)
    requires forall w | w in batch :: GoodWrite(w)
    ensures PutAll(s, batch).versions != [] && !Stale(PutAll(s, batch), user)
    decreases |batch|
  {
    hide Sound, Stale, GoodWrite;
    if batch != [] {
      assert batch[0] in batch;
      PutOneKeeps(cfg, s, batch[0]);
      PutOneNotStale(cfg, s, batch[0], user);
      PutAllNotStale(cfg, PutOne(s, batch[0]), batch[1..], user);
    }
  }

  lemma FlushNotStale(cfg: TableConfig, s: State, tables: seq<seq<seq<Entry>>>, s': State, user: Data)
    requires Sound(cfg, s) && s.versions != [] && FlushStep(cfg, s, tables, s') && !Stale(s, user)
    ensures s'.versions != [] && !Stale(s', user)
  {
    hide Sound, IsTop, Holds, Contents, Occurs, Stale, FlushStep, Install, Replaceable, Buried;
    FlushHolds(cfg, s, tables, s');
    SameHoldsSameTops(s, s');
    if s.mem == [] {
      EmptyFlush(cfg, s, tables, s');
      SameFilesSameStale(s, s', user);
    } else {
      forall f, g, y ensures !Buried(s', user, f, g, y) {
        if Buried(s', user, f, g, y) {
          FlushedBuried(cfg, s, tables, s', user, f, g, y);
        }
      }
      NotBuried(s', user);
    }
  }

  lemma EmptyFlush(cfg: TableConfig, s: State, tables: seq<seq<seq<Entry>>>, s': State)
    requires FlushStep(cfg, s, tables, s') && s.mem == []
    ensures s'.versions == s.versions && s'.disk == s.disk
  {
    hide Install, WellFormed, AllEntries;
  }

  // A file of the flushed memtable lies on level 0 and holds only what is newer than the other files.
  lemma FlushedBuried(cfg: TableConfig, s: State, tables: seq<seq<seq<Entry>>>, s': State, user: Data, f: FileId,
                      g: FileId, y: Entry)
    requires Sound(cfg, s) && s.versions != [] && FlushStep(cfg, s, tables, s') && s.mem != []
    requires s'.versions != [] && Buried(s', user, f, g, y) && (IsTop(s', y) ==> IsTop(s, y))
    ensures Stale(s, user)
  {
    hide Sound, IsTop, Contents, Occurs, FlushStep;
    FlushedOrigin(cfg, s, tables, s', f);
    FlushedOrigin(cfg, s, tables, s', g);
    if f >= s.nextFile {
      FlushedCovers(cfg, s, tables, s', user, f - s.nextFile, g, y);
    } else {
      assert Buried(s, user, f, g, y);
    }
  }

  lemma FlushedCovers(cfg: TableConfig, s: State, tables: seq<seq<seq<Entry>>>, s': State, user: Data, t: nat,
                      g: FileId, y: Entry)
    requires Sound(cfg, s) && s.versions != [] && FlushStep(cfg, s, tables, s') && s.mem != []
    requires t < |tables| && Occurs(Contents(FileRec(0, s.clock + t, tables[t])), user)
    requires g in Current(s) && g in s.disk && y in Contents(s.disk[g]) && y.key.user == user
    ensures !IsTop(s, y)
  {
    hide *;
    CurrentMem(cfg, s);
    FlushedMem(cfg, s, tables, s');
    var x := Occurrence(Contents(FileRec(0, s.clock + t, tables[t])), user);
    FlushedEntry(s, tables, t, x);
    MemNewer(s, g, x, y);
  }

  lemma FlushedOrigin(cfg: TableConfig, s: State, tables: seq<seq<seq<Entry>>>, s': State, f: FileId)
    requires Sound(cfg, s) && s.versions != [] && FlushStep(cfg, s, tables, s') && s.mem != []
    requires s'.versions != [] && f in Current(s') && f in s'.disk
    ensures f < s.nextFile ==> f in Current(s) && f in s.disk && s'.disk[f] == s.disk[f]
    ensures f >= s.nextFile ==>
              f < s.nextFile + |tables| && s'.disk[f] == FileRec(0, s.clock + (f - s.nextFile), tables[f - s.nextFile])
  {
    hide Sound, FlushStep, Install, Replaceable, AllEntries;
    FlushedMem(cfg, s, tables, s');
    InstalledFile(s.(mem := [], memBytes := 0), 0, tables, [], f);
  }

  lemma FlushedEntry(s: State, tables: seq<seq<seq<Entry>>>, t: nat, x: Entry)
    requires AllEntries(tables) == s.mem && t < |tables| && x in Contents(FileRec(0, s.clock + t, tables[t]))
    ensures x in s.mem
  {
    ContentsOf(0, s.clock + t, tables[t]);
    AllOf(tables, t, x);
  }

  lemma MemNewer(s: State, g: FileId, x: Entry, y: Entry)
    requires s.versions != [] && MemAbove(s, Current(s)) && g in Current(s) && g in s.disk && y in Contents(s.disk[g])
    requires x in s.mem && x.key.user == y.key.user
    ensures !IsTop(s, y)
  {
    hide Contents, Newer;
    NewerPair(s.mem, Contents(s.disk[g]), x, y);
    assert Holds(s, x);
  }

  lemma CollectNotStale(cfg: TableConfig, s: State, user: Data)
    requires Sound(cfg, s) && s.versions != [] && !Stale(s, user)
    ensures CollectGarbage(s).versions != [] && !Stale(CollectGarbage(s), user)
  {
    hide IsTop, Holds, Stale, CollectGarbage, SnapsOk, MemOk, MemOverAll, DiskOk, VersionsOk;
    CollectHolds(cfg, s);
    SameHoldsSameTops(s, CollectGarbage(s));
    CollectMeans(s);
    CollectFrame(s);
    SameFilesSameStale(s, CollectGarbage(s), user);
  }
}
