/** How many files a level has, and what flushes, compactions and collections do to that number. */
module StoreLevels {
  import opened TableImages
  import opened TableTheorems
  import opened TableWriting
  import opened Store
  import opened StoreInvariant
  import opened StoreRuns
  import G = Guarding

  // The files of level l of the current version.
  ghost function LevelSet(s: State, l: nat): set<FileId>
    requires s.versions != []
  {
    set f | f in Current(s) && AtLevel(s, l, f)
  }

  // The number of files of the level calls for a compaction.
  ghost predicate Needs(opt: Options, s: State, l: nat, ratio: real)
    requires ratio >= 0.0
  {
    s.versions != [] && NeedCompaction(opt, l, |LevelSet(s, l)|, ratio)
  }

  lemma LevelCount(s: State, l: nat, list: seq<FileId>)
    requires s.versions != [] && G.NoDuplicates(list) && forall f :: f in list <==> AtLevel(s, l, f)
    ensures |LevelSet(s, l)| == |list|
  {
    DistinctSize(list);
    assert LevelSet(s, l) == Members(list);
  }

  function Members(list: seq<FileId>): set<FileId> {
    set f | f in list
  }

  lemma {:induction false} DistinctSize(list: seq<FileId>)
    requires G.NoDuplicates(list)
    ensures |Members(list)| == |list|
  {
    if list != [] {
      var front, last := list[..|list| - 1], list[|list| - 1];
      DistinctFront(list);
      DistinctSize(front);
      assert list == front + [last];
      assert Members(list) == Members(front) + {last};
    }
  }

  lemma DistinctFront(list: seq<FileId>)
    requires G.NoDuplicates(list) && list != []
    ensures G.NoDuplicates(list[..|list| - 1]) && list[|list| - 1] !in list[..|list| - 1]
  {}

  // Installing tables takes the compacted files off every level and puts the new ones on theirs.
  lemma InstalledLevel(s: State, level: nat, tables: Tables, gone: seq<FileId>, k: nat)
    requires Replaceable(s, gone)
    ensures var s' := Install(s, level, tables, gone);
            s'.versions != [] && LevelSet(s', k) ==
              (LevelSet(s, k) - Members(gone)) + (if k == level then Members(NewIds(s, |tables|)) else {})
  {
    hide Install, NewIds, G.NoDuplicates;
    var s' := Install(s, level, tables, gone);
    InstalledFiles(s, level, tables, gone);
    NewIdsMean(s, |tables|);
    forall f ensures AtLevel(s', k, f) <==>
        (AtLevel(s, k, f) && f !in gone) || (k == level && f in NewIds(s, |tables|))
    {
      if f in Current(s') {
        InstalledFile(s, level, tables, gone, f);
      } else if AtLevel(s, k, f) {
        assert f in gone;
      }
    }
  }

  // A flush puts its tables on level 0 and leaves every other level alone.
  lemma FlushLevels(cfg: TableConfig, s: State, tables: Tables, s': State)
    requires Sound(cfg, s) && FlushStep(cfg, s, tables, s') && s.versions != []
    ensures s'.versions != []
    ensures |LevelSet(s', 0)| == |LevelSet(s, 0)| + (if s.mem == [] then 0 else |tables|)
    ensures forall k: nat | k > 0 :: LevelSet(s', k) == LevelSet(s, k)
  {
    hide DiskOk, SnapsOk, VersionsOk, MemOk, MemOverAll, Install, WellFormed, AllEntries, LevelSet, Replaceable;
    CurrentReplaceable(cfg, s, []);
    if s.mem == [] {
      forall k: nat ensures LevelSet(s', k) == LevelSet(s, k) {
        SameLevel(s, s', k);
      }
    } else {
      AddedLevels(s, tables);
      forall k: nat ensures LevelSet(s', k) == LevelSet(Install(s, 0, tables, []), k) {
        SameLevel(Install(s, 0, tables, []), s', k);
      }
    }
  }

  lemma AddedLevels(s: State, tables: Tables)
    requires Replaceable(s, [])
    ensures var s' := Install(s, 0, tables, []);
            && s'.versions != []
            && |LevelSet(s', 0)| == |LevelSet(s, 0)| + |tables|
            && forall k: nat | k > 0 :: LevelSet(s', k) == LevelSet(s, k)
  {
    hide Install, LevelSet, NewIds, G.NoDuplicates;
    var added := NewIds(s, |tables|);
    forall k: nat ensures var s' := Install(s, 0, tables, []);
        s'.versions != [] && LevelSet(s', k) == LevelSet(s, k) + (if k == 0 then Members(added) else {})
    {
      InstalledLevel(s, 0, tables, [], k);
      assert Members([]) == {};
    }
    NewIdsMean(s, |tables|);
    DistinctSize(added);
    NewIdsCount(s, |tables|);
    NewAreOther(s, |tables|, 0);
  }

  lemma SameLevel(s: State, s': State, k: nat)
    requires s.versions != [] && s'.versions != [] && Current(s') == Current(s) && s'.disk == s.disk
    ensures LevelSet(s', k) == LevelSet(s, k)
  {
    forall f ensures AtLevel(s', k, f) <==> AtLevel(s, k, f) {}
  }

  lemma NewIdsCount(s: State, n: nat)
    ensures |NewIds(s, n)| == n
  {}

  lemma NewAreOther(s: State, n: nat, k: nat)
    requires Replaceable(s, [])
    ensures LevelSet(s, k) !! Members(NewIds(s, n))
  {
    hide NewIds, G.NoDuplicates;
    NewIdsMean(s, n);
  }

  // A compaction takes the selected files off its level and the next one, and puts its outputs there. With
  // the full ratio the newest file is what remains of its level.
  lemma CompactLevels(cfg: TableConfig, opt: Options, s: State, l: nat, ratio: real,
                      byTime: seq<FileId>, pulled: seq<FileId>, tables: Tables, s': State)
    requires Sound(cfg, s) && CompactStep(cfg, opt, s, l, ratio, byTime, pulled, tables, s')
    requires s.versions != [] && s'.versions != [] && byTime != [] && 0.0 < ratio <= 1.0
    ensures var sel := Selected(byTime, pulled, ratio);
            && LevelSet(s', l) == LevelSet(s, l) - Members(sel)
            && LevelSet(s', l + 1) == LevelSet(s, l + 1) - Members(sel) + Members(NewIds(s, |tables|))
    ensures forall k: nat | k < l || k > l + 1 :: LevelSet(s', k) == LevelSet(s, k)
    ensures ratio == 1.0 ==> LevelSet(s', l) == {byTime[|byTime| - 1]}
  {
    hide DiskOk, SnapsOk, VersionsOk, MemOk, MemOverAll, Install, NewIds, Selected, Chosen, CompactStep, Compacts,
         NeedCompaction, LevelSet, Replaceable;
    StepCompacts(cfg, opt, s, l, ratio, byTime, pulled, tables, s');
    var sel := Selected(byTime, pulled, ratio);
    forall f | f in sel ensures f in s.disk && l <= s.disk[f].level <= l + 1 {
      SelectedCurrent(s, l, byTime, pulled, ratio, f);
    }
    CurrentReplaceable(cfg, s, sel);
    InstalledLevel(s, l + 1, tables, sel, l);
    InstalledLevel(s, l + 1, tables, sel, l + 1);
    forall k: nat | k < l || k > l + 1 ensures LevelSet(s', k) == LevelSet(s, k) {
      InstalledLevel(s, l + 1, tables, sel, k);
      OtherLevel(s, sel, l, k);
    }
    if ratio == 1.0 {
      NewestRemains(s, l, byTime, pulled);
    }
  }

  lemma OtherLevel(s: State, sel: seq<FileId>, l: nat, k: nat)
    requires s.versions != [] && (k < l || k > l + 1)
    requires forall f | f in sel :: f in s.disk && l <= s.disk[f].level <= l + 1
    ensures LevelSet(s, k) - Members(sel) == LevelSet(s, k)
  {}

  lemma NewestRemains(s: State, l: nat, byTime: seq<FileId>, pulled: seq<FileId>)
    requires s.versions != [] && byTime != [] && Chosen(s, l, byTime, pulled)
    ensures LevelSet(s, l) - Members(Selected(byTime, pulled, 1.0)) == {byTime[|byTime| - 1]}
  {
    hide Overlap, Contents;
    var newest, all := byTime[|byTime| - 1], byTime[..|byTime| - 1] + pulled;
    assert Kept(|all|, 1.0) == |all|;
    assert Selected(byTime, pulled, 1.0) == all;
    assert newest in byTime;
    forall f | AtLevel(s, l, f) ensures f in all <==> f != newest {
      var i :| 0 <= i < |byTime| && byTime[i] == f;
      if i < |byTime| - 1 {
        assert all[i] == f;
        assert s.disk[byTime[i]].time < s.disk[newest].time;
      } else {
        NotOlder(s, byTime, pulled, l);
      }
    }
  }

  // The newest file is neither among the older ones nor among those of the next level.
  lemma NotOlder(s: State, byTime: seq<FileId>, pulled: seq<FileId>, l: nat)
    requires s.versions != [] && byTime != [] && Chosen(s, l, byTime, pulled)
    ensures byTime[|byTime| - 1] !in byTime[..|byTime| - 1] + pulled
  {
    hide Overlap, Contents;
    var newest := byTime[|byTime| - 1];
    assert newest in byTime;
    forall i | 0 <= i < |byTime| - 1 ensures byTime[i] != newest {
      assert byTime[i] in byTime;
      assert s.disk[byTime[i]].time < s.disk[newest].time;
    }
    assert newest !in pulled;
  }

  // A collection leaves every level alone.
  lemma CollectLevel(cfg: TableConfig, s: State, k: nat)
    requires Sound(cfg, s)
    ensures s.versions != [] && CollectGarbage(s).versions != []
    ensures LevelSet(CollectGarbage(s), k) == LevelSet(s, k)
  {
    hide DiskOk, SnapsOk, MemOk, MemOverAll, CollectGarbage, GoodVersion;
    var s' := CollectGarbage(s);
    CollectMeans(s);
    CollectDisk(s);
    var last := s.versions[|s.versions| - 1];
    assert last in s.versions;
    forall f ensures AtLevel(s', k, f) <==> AtLevel(s, k, f) {
      if f in Current(s) {
        assert last in s'.versions && f in last.files;
      }
    }
  }

  lemma CollectDisk(s: State)
    ensures forall f | f in CollectGarbage(s).disk :: f in s.disk && CollectGarbage(s).disk[f] == s.disk[f]
  {
    hide LiveVersions;
  }
}
