/** A stale read, step by step: a store that satisfies the level invariant, a compaction of level 2 that
    puts an old version above a newer one without any read noticing, and a compaction of level 3 that
    then moves the newer version away from under it. */
module StoreWitness {
  import opened Bytes
  import opened Keys
  import opened TableImages
  import opened TableLookup
  import opened TableReads
  import opened TableTheorems
  import opened TableLimits
  import opened Merging
  import opened TableWriting
  import opened Store
  import opened StoreInvariant
  import opened StoreRefinement
  import opened StoreStale
  import opened StoreRuns
  import opened StoreExact
  import G = Guarding

  /* The entries by number: two versions of the key 9, and one of each of five other keys. */
  function KeyByte(n: nat): Byte {
    if n == 1 then 4 else if n == 2 || n == 4 then 9 else if n == 3 then 40 else if n == 5 then 5
    else if n == 6 then 30 else 50
  }

  function Numbered(n: nat): Entry
    requires 1 <= n <= 7
  {
    Entry(SeqKey(n, [KeyByte(n)]), Put([if n == 4 then 2 else 1]))
  }

  // The file that holds the entry of this number.
  function FileOf(n: nat): nat {
    if n == 3 then 0 else if n <= 2 then 1 else if n == 4 then 2 else n - 2
  }

  function InFile(f: nat): seq<Entry>
    requires f < 6
  {
    if f == 0 then [Numbered(3)] else if f == 1 then [Numbered(1), Numbered(2)]
    else if f == 2 then [Numbered(4)] else [Numbered(f + 2)]
  }

  function FileHere(f: nat): FileRec
    requires f < 6
  {
    FileRec(if f < 3 then 3 else 2, f, Singles(InFile(f)))
  }

  const OPT := Options(100, [2, 2, 2, 2], [4, 4, 4, 4, 4], 3)
  const ALL: seq<FileId> := [0, 1, 2, 3, 4, 5]

  // Level 3: files 0 to 2, the old version of the key 9 in file 1, the new one in file 2. Level 2: files 3 to 5.
  function Before(): State {
    State([], 0, 8, 6, 6, 1, map f | 0 <= f < 6 :: FileHere(f), [VersionRec(0, ALL)], map[])
  }

  lemma HereContents(f: nat)
    requires f < 6
    ensures Contents(FileHere(f)) == InFile(f)
    ensures forall e | e in InFile(f) :: 1 <= e.key.seqNo <= 7 && e == Numbered(e.key.seqNo) && FileOf(e.key.seqNo) == f
  {
    SinglesHold(InFile(f));
  }

  function Stored(): set<Entry> {
    {Numbered(1), Numbered(2), Numbered(3), Numbered(4), Numbered(5), Numbered(6), Numbered(7)}
  }

  lemma StoredSmall(e: Entry)
    requires e in Stored()
    ensures ValidEntry(e) && EntrySize(e) <= MAX_ENTRY && |Stored()| <= MAX_HELD
  {}

  // Any sorted run of these entries can be one table.
  lemma OneTable(cfg: TableConfig, es: seq<Entry>)
    requires Roomy(cfg) && es != [] && KeySorted(es) && forall e | e in es :: e in Stored()
    ensures WellFormed(cfg, Singles(es)) && Flat(Singles(es)) == es && AllEntries([Singles(es)]) == es
  {
    hide Roomy, KeySorted, ValidEntry, EntrySize, RunsFit, WellFormed, Stored;
    forall e | e in Stored() ensures ValidEntry(e) && EntrySize(e) <= MAX_ENTRY && |Stored()| <= MAX_HELD {
      StoredSmall(e);
    }
    assert es[0] in Stored();
    LimitsFit(cfg, Stored(), es);
    SinglesWellFormed(cfg, es);
    assert Flat(Singles(es)) + [] == es;
    assert [Singles(es)][1..] == [];
  }

  lemma InFileSorted(f: nat)
    requires f < 6
    ensures KeySorted(InFile(f)) && InFile(f) != [] && Below(InFile(f), 8) && forall e | e in InFile(f) :: e in Stored()
  {
    assert LexLess([4], [9]);
  }

  lemma BeforeFiles(cfg: TableConfig, f: nat)
    requires Roomy(cfg) && f < 6
    ensures GoodFile(cfg, FileHere(f), 8, 6)
  {
    hide Roomy, WellFormed, KeySorted, Below, Stored, InFile;
    InFileSorted(f);
    HereContents(f);
    OneTable(cfg, InFile(f));
  }

  lemma BeforePairs(f: nat, g: nat)
    requires f < 6 && g < 6 && f != g
    ensures Apart(InFile(f), InFile(g))
    ensures Above(FileHere(f), FileHere(g)) || Above(FileHere(g), FileHere(f))
    ensures Above(FileHere(f), FileHere(g)) ==> Newer(InFile(f), InFile(g))
  {
    hide InFile, Singles;
    HereContents(f);
    HereContents(g);
  }

  lemma BeforeVersion()
    ensures GoodVersion(Before().disk, ALL) && Layered(Before().disk, ALL) && MemAbove(Before(), ALL)
  {
    hide InFile, Above, Newer, Apart, FileHere, Contents;
    forall f, g | f in ALL && g in ALL && f != g
      ensures Apart(Contents(FileHere(f)), Contents(FileHere(g)))
      ensures Above(FileHere(f), FileHere(g)) || Above(FileHere(g), FileHere(f))
      ensures Above(FileHere(f), FileHere(g)) ==> Newer(Contents(FileHere(f)), Contents(FileHere(g)))
    {
      HereContents(f);
      HereContents(g);
      BeforePairs(f, g);
    }
    forall f | f in ALL ensures Newer([], Contents(FileHere(f))) {
      NothingNewer(Contents(FileHere(f)));
    }
  }

  lemma NothingNewer(es: seq<Entry>)
    ensures Newer([], es)
  {}

  lemma BeforeHolds(cfg: TableConfig)
    requires Roomy(cfg)
    ensures Inv(cfg, Before())
  {
    hide GoodVersion, Layered, MemAbove, GoodFile, Roomy, FileHere;
    BeforeVersion();
    forall f | f in Before().disk ensures GoodFile(cfg, Before().disk[f], 8, 6) {
      BeforeFiles(cfg, f);
    }
    assert Before().versions[0].files == ALL;
  }

  /* ---------------------------------------------------------------- what it holds */

  lemma HeldHere(e: Entry)
    requires Holds(Before(), e)
    ensures 1 <= e.key.seqNo <= 7 && e == Numbered(e.key.seqNo) && e in Stored()
  {
    hide Contents, InFile, FileHere, Numbered;
    var f :| f in ALL && e in Contents(Before().disk[f]);
    HereContents(f);
    InFileSorted(f);
  }

  lemma NewNineIsTop()
    ensures IsTop(Before(), Numbered(4))
  {
    hide Holds, Before;
    NewNineHeld();
    forall x | Holds(Before(), x) && x.key.user == [9] ensures x.key.seqNo <= 4 {
      HeldHere(x);
    }
  }

  lemma NinesHere()
    ensures Numbered(2) in Contents(FileHere(1)) && Numbered(4) in Contents(FileHere(2))
  {
    hide Contents, Singles;
    HereContents(1);
    HereContents(2);
  }

  lemma NewNineHeld()
    ensures Before().versions != [] && Holds(Before(), Numbered(4))
  {
    hide Contents, FileHere;
    HereContents(2);
    HereAt();
    assert Before().disk[2] == FileHere(2);
  }

  /* ---------------------------------------------------------------------- merging */

  // The merge of some current files, as one table.
  lemma MergeOnce(cfg: TableConfig, s: State, sel: seq<FileId>) returns (tables: Tables)
    requires Roomy(cfg) && s.versions != [] && Sound(cfg, s) && (forall e | Holds(s, e) :: e in Stored())
    requires |sel| >= 2 && G.NoDuplicates(sel) && forall f | f in sel :: f in Current(s) && f in s.disk
    ensures Compacts(cfg, s, sel, tables) && |tables| == 1
  {
    hide Roomy, Sound, Contents, MergeableTables, DevideAndConquerMerge, Stored, Backwards, WellFormed, KeySorted,
         AllEntries;
    FilesCanMerge(cfg, s, sel);
    var lists := Backwards(s, sel);
    var merged := DevideAndConquerMerge(lists);
    var es := Reverse(merged);
    MergedSorted(lists);
    MergeNotEmpty(s, sel, merged, cfg);
    forall e | e in es ensures e in Stored() {
      MergedHeld(s, sel, e);
    }
    tables := [Singles(es)];
    OneTable(cfg, es);
  }

  lemma MergeNotEmpty(s: State, sel: seq<FileId>, merged: seq<Entry>, cfg: TableConfig)
    requires s.versions != [] && Sound(cfg, s) && |sel| >= 2 && (forall f | f in sel :: f in Current(s) && f in s.disk)
    requires MergeableTables(Backwards(s, sel)) && merged == DevideAndConquerMerge(Backwards(s, sel))
    ensures Reverse(merged) != []
  {
    hide MergeableTables, DevideAndConquerMerge, SnapsOk, MemOk, MemOverAll, VersionsOk, WellFormed, Contents, Keeps,
         Backwards;
    var r := s.disk[sel[0]];
    assert GoodFile(cfg, r, s.nextSeq, s.clock);
    FileSorted(cfg, r);
    var e := Contents(r)[0];
    SelectedEntry(s, sel, sel[0], e);
    MergeTablesNewest(Backwards(s, sel));
    var k := CoveringVersion(merged, Backwards(s, sel), e);
    ReverseReverses(merged);
  }

  lemma MergedHeld(s: State, sel: seq<FileId>, e: Entry)
    requires s.versions != [] && |sel| >= 2 && (forall f | f in sel :: f in Current(s) && f in s.disk)
    requires MergeableTables(Backwards(s, sel)) && e in Reverse(DevideAndConquerMerge(Backwards(s, sel)))
    ensures Holds(s, e)
  {
    hide MergeableTables, DevideAndConquerMerge, Contents, Covered;
    var lists := Backwards(s, sel);
    var merged := DevideAndConquerMerge(lists);
    ReverseReverses(merged);
    MergeTablesNewest(lists);
    FlatHolds(lists, e);
    var i :| 0 <= i < |lists| && e in lists[i];
    ReverseReverses(Contents(s.disk[sel[i]]));
  }

  /* -------------------------------------------------------- the harmful compaction */

  lemma OneByte(a: Byte, b: Byte)
    ensures UserLess([a], [b]) <==> a < b
  {
    hide Compare;
    CompareIsLexicographic([a], [b]);
    assert LexLess([a], [b]) <==> a < b;
    assert LexLess([b], [a]) <==> b < a;
  }

  // File 3 begins and ends with the key 5: of level 3 it overlaps file 1 only.
  lemma PulledHere(f: nat)
    requires f < 3
    ensures Overlap(Contents(FileHere(3)), Contents(FileHere(f))) <==> f == 1
  {
    hide UserLess, Contents, Singles;
    HereContents(3);
    HereContents(f);
    OneByte(5, 40);
    OneByte(5, 4);
    OneByte(9, 5);
    OneByte(5, 9);
  }

  lemma FirstSelected()
    ensures Selected([3, 4, 5], [1], 1.0) == [3, 4, 1] && NeedCompaction(OPT, 2, 3, 1.0) && OPT.maxLevel == 3
  {
    assert Kept(3, 1.0) == 3;
    assert [3, 4, 5][..2] + [1] == [3, 4, 1] && [3, 4, 1][..3] == [3, 4, 1];
    assert (2 as real * 1.0).Floor == 2;
  }

  lemma FirstChosen()
    ensures Chosen(Before(), 2, [3, 4, 5], [1])
  {
    hide Contents, FileHere, Overlap;
    HereAt();
    forall f
      ensures f in [1] <==> AtLevel(Before(), 3, f) && Overlap(Contents(Before().disk[3]), Contents(Before().disk[f]))
    {
      if f < 3 { PulledHere(f); }
    }
  }

  lemma HereAt()
    ensures forall f | 0 <= f < 6 ::
              f in ALL && f in Before().disk && Before().disk[f].level == (if f < 3 then 3 else 2)
              && Before().disk[f].time == f
  {
    hide Contents, Singles;
  }

  // File 2 stays on level 3 with the new version of the key 9, file 1 with the old one is merged.
  lemma FirstHarmful()
    ensures Harmful(Before(), 2, [3, 4, 1])
  {
    hide Contents, Singles, Occurs, InFile, SelectedAbove;
    var s, user, sel: seq<FileId> := Before(), [9], [3, 4, 1];
    HereAt();
    WhereNine(1);
    WhereNine(2);
    assert AtLevel(s, 3, 2) && 2 !in sel && 1 in sel;
    forall g | g in sel ensures !(Occurs(Contents(s.disk[g]), user) && Above(s.disk[g], s.disk[2])) {
      WhereNine(g);
    }
    NoneAbove(s, sel, 2, user);
  }

  lemma NoneAbove(s: State, sel: seq<FileId>, f: FileId, user: Data)
    requires f in s.disk
    requires forall g | g in sel && g in s.disk :: !(Occurs(Contents(s.disk[g]), user) && Above(s.disk[g], s.disk[f]))
    ensures !SelectedAbove(s, sel, f, user)
  {
    hide Contents, Occurs, Above;
  }

  lemma WhereNine(g: nat)
    requires g < 6
    ensures Occurs(Contents(FileHere(g)), [9]) <==> g == 1 || g == 2
  {
    hide Contents, Singles;
    HereContents(g);
    if g == 1 { assert InFile(1)[1].key.user == [9]; }
    if g == 2 { assert InFile(2)[0].key.user == [9]; }
  }

  /* ------------------------------------------------------ the compaction that strands */

  lemma AfterFirst(cfg: TableConfig, tables: Tables)
    requires Roomy(cfg) && Compacts(cfg, Before(), [3, 4, 1], tables) && |tables| == 1
    ensures var s := Install(Before(), 3, tables, [3, 4, 1]);
            && s.versions != [] && (forall f :: f in Current(s) <==> f == 0 || f == 2 || f == 5 || f == 6)
            && s.disk.Keys >= {0, 2, 5, 6} && s.disk[0] == FileHere(0) && s.disk[2] == FileHere(2)
            && s.disk[5] == FileHere(5)
            && s.disk[6] == FileRec(3, 6, tables[0])
  {
    hide Roomy, Compacts, Install, FileHere, Sound, Replaceable;
    BeforeHolds(cfg);
    InvSound(cfg, Before());
    CompactReplaces(cfg, Before(), [3, 4, 1], tables);
    InstalledFiles(Before(), 3, tables, [3, 4, 1]);
    InstalledFile(Before(), 3, tables, [3, 4, 1], 0);
    InstalledFile(Before(), 3, tables, [3, 4, 1], 2);
    InstalledFile(Before(), 3, tables, [3, 4, 1], 5);
    InstalledFile(Before(), 3, tables, [3, 4, 1], 6);
  }

  lemma SecondChosen(cfg: TableConfig, tables: Tables)
    requires Roomy(cfg) && Compacts(cfg, Before(), [3, 4, 1], tables) && |tables| == 1
    ensures Chosen(Install(Before(), 3, tables, [3, 4, 1]), 3, [0, 2, 6], [])
    ensures Selected([0, 2, 6], [], 1.0) == [0, 2] && NeedCompaction(OPT, 3, 3, 1.0) && G.NoDuplicates([0, 2])
  {
    hide Roomy, Compacts, Install, Contents, Overlap, Singles, InFile;
    AfterFirst(cfg, tables);
    assert Kept(2, 1.0) == 2;
    assert [0, 2, 6][..2] + [] == [0, 2] && [0, 2][..2] == [0, 2];
    assert (2 as real * 1.0).Floor == 2;
  }

  // The old version of the key 9 came to file 6, above which nothing on level 3 is compacted.
  lemma SecondStrands(cfg: TableConfig, tables: Tables)
    requires Roomy(cfg) && Compacts(cfg, Before(), [3, 4, 1], tables) && |tables| == 1
    ensures var s := Install(Before(), 3, tables, [3, 4, 1]); s.versions != [] && Strands(s, 3, [0, 2], [9])
  {
    hide Roomy, Compacts, Install, Contents, InFile, Singles, IsTop, Sound;
    var s := Install(Before(), 3, tables, [3, 4, 1]);
    BeforeHolds(cfg);
    InvSound(cfg, Before());
    AfterFirst(cfg, tables);
    NewNineIsTop();
    NinesHere();
    CompactTops(cfg, Before(), 3, [3, 4, 1], tables);
    HereAt();
    var t, k := MergedVersion(cfg, Before(), [3, 4, 1], tables, 1, Numbered(2));
    ContentsOf(3, 6, tables[0]);
    OccursIn(Contents(s.disk[6]), k);
    assert StrandedBy(s, 3, [0, 2], [9], 2, Numbered(4), 6);
  }

  // What is read of the key 9 as long as nothing else is written.
  lemma ReadNine(cfg: TableConfig, s: State)
    requires s.versions != [] && Sound(cfg, s) && IsTop(s, Numbered(4)) && forall e | Holds(s, e) :: Holds(Before(), e)
    ensures Readable(s.disk, Current(s)) && 1 <= s.nextSeq <= 0x1_0000_0000
    ensures Get(s, [9]) == Some(if Stale(s, [9]) then [1] else [2])
  {
    hide Sound, Holds, Stale, Lookup, Readable;
    ReadExact(cfg, s, [9]);
    TopHolds(s, Numbered(4));
    var r := Lookup(s, Current(s), [9], s.nextSeq - 1);
    HeldHere(r.value);
    if !Stale(s, [9]) {
      TopUnique(cfg, s, r.value, Numbered(4));
    }
  }

  ghost predicate ReadsNine(s: State, value: Byte) {
    && s.versions != [] && Readable(s.disk, Current(s)) && 1 <= s.nextSeq <= 0x1_0000_0000
    && Get(s, [9]) == Some([value])
  }

  lemma HarmfulMeans(s: State, l: nat, sel: seq<FileId>)
    requires Harmful(s, l, sel)
    ensures s.versions != [] && !Harmless(s, l, sel)
  {}

  ghost predicate Harmful(s: State, l: nat, sel: seq<FileId>) {
    s.versions != [] && !Harmless(s, l, sel)
  }

  // From a state that satisfies the level invariant: the compaction of level 2 breaks the invariant and
  // changes no answer; the compaction of level 3 after it makes the key 9 read as its old value.
  lemma StaleRead(cfg: TableConfig, opt: Options)
    returns (s: State, s1: State, s2: State, first: Tables, second: Tables)
    requires Roomy(cfg) && opt == OPT
    ensures Inv(cfg, s) && ReadsNine(s, 2) && Harmful(s, 2, [3, 4, 1])
    ensures CompactStep(cfg, opt, s, 2, 1.0, [3, 4, 5], [1], first, s1) && !Inv(cfg, s1) && ReadsNine(s1, 2)
    ensures CompactStep(cfg, opt, s1, 3, 1.0, [0, 2, 6], [], second, s2) && ReadsNine(s2, 1)
  {
    hide *;
    s := Before();
    BeforeHolds(cfg);
    InvSound(cfg, s);
    FirstChosen();
    FirstSelected();
    FirstHarmful();
    NewNineIsTop();
    HeldIsStored();
    FirstFiles();
    first := MergeOnce(cfg, s, [3, 4, 1]);
    s1 := Install(s, 3, first, [3, 4, 1]);
    StepFrom(cfg, OPT, s, 2, [3, 4, 5], [1], [3, 4, 1], first);
    HarmfulMeans(s, 2, [3, 4, 1]);
    CompactionExact(cfg, OPT, s, 2, 1.0, [3, 4, 5], [1], first, s1);
    CompactSound(cfg, s, 3, [3, 4, 1], first);
    CompactTops(cfg, s, 3, [3, 4, 1], first);
    LayeredNotStale(cfg, s, [9]);
    LayeredNotStranded(cfg, s, 2, [3, 4, 5], [1], 1.0, [9]);
    StepStrandsExact(cfg, OPT, s, 2, 1.0, [3, 4, 5], [1], first, s1, [9]);
    ReadNine(cfg, s);
    ReadNine(cfg, s1);
    SecondChosen(cfg, first);
    SecondStrands(cfg, first);
    AfterFirst(cfg, first);
    second := MergeOnce(cfg, s1, [0, 2]);
    s2 := Install(s1, 4, second, [0, 2]);
    StepFrom(cfg, OPT, s1, 3, [0, 2, 6], [], [0, 2], second);
    CompactSound(cfg, s1, 4, [0, 2], second);
    CompactTops(cfg, s1, 4, [0, 2], second);
    StepStrandsExact(cfg, OPT, s1, 3, 1.0, [0, 2, 6], [], second, s2, [9]);
    ReadNine(cfg, s2);
    NineRead(s, 2);
    NineRead(s1, 2);
    NineRead(s2, 1);
  }

  lemma NineRead(s: State, value: Byte)
    requires s.versions != [] && Readable(s.disk, Current(s)) && 1 <= s.nextSeq <= 0x1_0000_0000
    requires Get(s, [9]) == Some([value])
    ensures ReadsNine(s, value)
  {}

  lemma HeldIsStored()
    ensures forall e | Holds(Before(), e) :: e in Stored()
  {
    hide Holds, Stored;
    forall e | Holds(Before(), e) ensures e in Stored() {
      HeldHere(e);
    }
  }

  lemma FirstFiles()
    ensures Before().versions != [] && G.NoDuplicates([3, 4, 1])
    ensures forall f | f in [3, 4, 1] :: f in Current(Before()) && f in Before().disk
  {}

  lemma StepFrom(cfg: TableConfig, opt: Options, s: State, l: nat, byTime: seq<FileId>, pulled: seq<FileId>,
                 sel: seq<FileId>, tables: Tables)
    requires s.versions != [] && l <= opt.maxLevel && byTime != [] && Chosen(s, l, byTime, pulled)
    requires NeedCompaction(opt, l, |byTime|, 1.0)
    requires sel == Selected(byTime, pulled, 1.0) && Compacts(cfg, s, sel, tables)
    ensures CompactStep(cfg, opt, s, l, 1.0, byTime, pulled, tables, Install(s, l + 1, tables, sel))
  {
    hide Chosen, NeedCompaction, Selected, MergeWritten, Install, Backwards;
  }
}
