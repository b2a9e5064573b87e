/** Exactly which compactions keep the level invariant, and which level shares and ratios supply the
    merge with two tables. */
module StoreExact {
  import opened Bytes
  import opened Keys
  import opened TableImages
  import opened TableLookup
  import opened Store
  import opened StoreInvariant
  import opened StoreRefinement
  import opened StoreStale
  import opened StoreRuns
  import G = Guarding

  /* ------------------------------------------------- harmless compactions */

  // An old version in a new table lies above a newer one in a file of the same level that stays.
  lemma BuriedBreaks(cfg: TableConfig, s: State, level: nat, sel: seq<FileId>, tables: Tables, f: FileId, h: FileId,
                     user: Data)
    requires s.versions != [] && Inv(cfg, s) && Compacts(cfg, s, sel, tables)
    requires f in Current(s) && f in s.disk && s.disk[f].level == level && f !in sel && h in sel && h in s.disk
    requires Occurs(Contents(s.disk[f]), user) && Occurs(Contents(s.disk[h]), user) && !SelectedAbove(s, sel, f, user)
    ensures !Inv(cfg, Install(s, level, tables, sel))
  {
    hide *;
    InvSound(cfg, s);
    CompactReplaces(cfg, s, sel, tables);
    var t, k, y := OlderOutput(cfg, s, sel, tables, f, h, user);
    FileTime(cfg, s, f);
    NewFileThere(s, level, tables, sel, t);
    ContentsOf(level, s.clock + t, tables[t]);
    OldFileThere(s, level, tables, sel, f);
    if Inv(cfg, Install(s, level, tables, sel)) {
      OutOfOrder(cfg, Install(s, level, tables, sel), s.nextFile + t,
                 FileRec(level, s.clock + t, tables[t]), f, s.disk[f], k, y);
    }
  }

  // Some output holds a version of the key older than the file's.
  lemma OlderOutput(cfg: TableConfig, s: State, sel: seq<FileId>, tables: Tables, f: FileId, h: FileId, user: Data)
    returns (t: nat, k: Entry, y: Entry)
    requires s.versions != [] && Inv(cfg, s) && Compacts(cfg, s, sel, tables)
    requires f in Current(s) && f in s.disk && f !in sel && h in sel && h in s.disk
    requires Occurs(Contents(s.disk[f]), user) && Occurs(Contents(s.disk[h]), user) && !SelectedAbove(s, sel, f, user)
    ensures t < |tables| && k in Flat(tables[t]) && y in Contents(s.disk[f])
    ensures k.key.user == user == y.key.user && k.key.seqNo < y.key.seqNo
  {
    hide *;
    var z := Occurrence(Contents(s.disk[h]), user);
    t, k := MergedVersion(cfg, s, sel, tables, h, z);
    var from := OutputFrom(cfg, s, sel, tables, t, k);
    CompactsSome(cfg, s, sel, tables);
    OccursIn(Contents(s.disk[from]), k);
    y := Occurrence(Contents(s.disk[f]), user);
    OlderHolder(cfg, s, sel, f, from, user, y, k);
  }

  lemma FileTime(cfg: TableConfig, s: State, f: FileId)
    requires Inv(cfg, s) && f in s.disk
    ensures f < s.nextFile && s.disk[f].time < s.clock
  {
    hide DiskOk, SnapsOk, VersionsOk, MemOk, MemOverAll;
    FileTimes(cfg, s, f);
  }

  // A selected holder of the key that does not lie above the file lies below it.
  lemma OlderHolder(cfg: TableConfig, s: State, sel: seq<FileId>, f: FileId, from: FileId, user: Data, y: Entry,
                    k: Entry)
    requires s.versions != [] && Inv(cfg, s) && f in Current(s) && from in Current(s) && f in s.disk && from in s.disk
    requires f !in sel && from in sel && !SelectedAbove(s, sel, f, user) && Occurs(Contents(s.disk[from]), user)
    requires y in Contents(s.disk[f]) && k in Contents(s.disk[from]) && y.key.user == user == k.key.user
    ensures k.key.seqNo < y.key.seqNo
  {
    hide Contents, Sound, Occurs, G.NoDuplicates;
    CurrentGood(cfg, s);
    assert Above(s.disk[f], s.disk[from]);
  }

  lemma OutOfOrder(cfg: TableConfig, s: State, a: FileId, ra: FileRec, b: FileId, rb: FileRec, x: Entry, y: Entry)
    requires Inv(cfg, s) && Lists(s, a, ra) && Lists(s, b, rb) && a != b && ra.level == rb.level && rb.time < ra.time
    requires x in Contents(ra) && y in Contents(rb) && x.key.user == y.key.user
    ensures y.key.seqNo < x.key.seqNo
  {
    hide Contents, Sound;
    assert Above(s.disk[a], s.disk[b]);
  }

  // Pulling a file down below a younger file with the same key puts an old version above a newer one.
  lemma HarmfulBreaks(cfg: TableConfig, opt: Options, s: State, l: nat, ratio: real,
                      byTime: seq<FileId>, pulled: seq<FileId>, tables: Tables, s': State)
    requires Inv(cfg, s) && CompactStep(cfg, opt, s, l, ratio, byTime, pulled, tables, s')
    requires byTime != [] && 0.0 < ratio <= 1.0 && s.versions != [] && !Harmless(s, l, Selected(byTime, pulled, ratio))
    ensures !Inv(cfg, s')
  {
    hide Inv, CompactStep, Selected, Compacts, Install, SelectedAbove, Occurs, Contents;
    StepCompacts(cfg, opt, s, l, ratio, byTime, pulled, tables, s');
    var sel := Selected(byTime, pulled, ratio);
    var f, h, user :| AtLevel(s, l + 1, f) && f !in sel && h in sel && h in s.disk
      && Occurs(Contents(s.disk[f]), user) && Occurs(Contents(s.disk[h]), user) && !SelectedAbove(s, sel, f, user);
    BuriedBreaks(cfg, s, l + 1, sel, tables, f, h, user);
  }

  // The level invariant survives a compaction exactly when its selection is harmless.
  lemma CompactionExact(cfg: TableConfig, opt: Options, s: State, l: nat, ratio: real,
                        byTime: seq<FileId>, pulled: seq<FileId>, tables: Tables, s': State)
    requires Inv(cfg, s) && CompactStep(cfg, opt, s, l, ratio, byTime, pulled, tables, s')
    ensures Inv(cfg, s') <==> Harmless(s, l, Selected(byTime, pulled, ratio))
  {
    hide Inv, CompactStep, Harmless, Selected, Compacts, Install;
    InvSound(cfg, s);
    StepCompacts(cfg, opt, s, l, ratio, byTime, pulled, tables, s');
    if Harmless(s, l, Selected(byTime, pulled, ratio)) {
      CompactKeeps(cfg, opt, s, l, ratio, byTime, pulled, tables, s');
    } else {
      HarmfulBreaks(cfg, opt, s, l, ratio, byTime, pulled, tables, s');
    }
  }

  // No read notices at that step: even a compaction that breaks the level invariant makes no key stale.
  lemma BrokenButNotStale(cfg: TableConfig, opt: Options, s: State, l: nat, ratio: real,
                          byTime: seq<FileId>, pulled: seq<FileId>, tables: Tables, s': State, m: map<Data, Data>,
                          user: Data)
    requires Inv(cfg, s) && CompactStep(cfg, opt, s, l, ratio, byTime, pulled, tables, s') && s.versions != []
    requires Agrees(s, m)
    ensures s'.versions != [] && !Stale(s', user)
    ensures Reads(s, m, user) && Reads(s', m, user)
  {
    hide Inv, Sound, Agrees, CompactStep, Selected, Compacts, Install, Stale, Strands, Get, Readable;
    InvSound(cfg, s);
    StepCompacts(cfg, opt, s, l, ratio, byTime, pulled, tables, s');
    LayeredNotStale(cfg, s, user);
    LayeredNotStranded(cfg, s, l, byTime, pulled, ratio, user);
    StepStrandsExact(cfg, opt, s, l, ratio, byTime, pulled, tables, s', user);
    CompactKeeps(cfg, opt, s, l, ratio, byTime, pulled, tables, s');
    CompactAgrees(cfg, opt, s, l, ratio, byTime, pulled, tables, s', m);
    GetAgrees(cfg, s, m, user);
    GetAgrees(cfg, s', m, user);
  }

  /* ------------------------------------------------------- how many files, and when */

  // The share is the ratio's part of the allowed number, rounded down.
  lemma ShareExact(opt: Options, l: nat, ratio: real)
    requires ratio >= 0.0 && l < |opt.allowed|
    ensures Share(opt, l, ratio) as real <= opt.allowed[l] as real * ratio < Share(opt, l, ratio) as real + 1.0
  {}

  // With the full ratio a level needs compaction exactly when it has more files than it is allowed.
  lemma NeedsFull(opt: Options, l: nat, n: nat)
    ensures NeedCompaction(opt, l, n, 1.0) <==> l < |opt.allowed| && 0 < opt.allowed[l] < n
  {
    if l < |opt.allowed| {
      ShareExact(opt, l, 1.0);
    }
  }

  // With the background task's ratio: exactly when it has more than seven tenths of them, rounded down.
  lemma NeedsBackground(opt: Options, l: nat, n: nat)
    ensures NeedCompaction(opt, l, n, 0.7) <==> l < |opt.allowed| && 10 <= 7 * opt.allowed[l] < 10 * n
  {
    if l < |opt.allowed| {
      ShareExact(opt, l, 0.7);
      TenthsBelow(Share(opt, l, 0.7), opt.allowed[l]);
    }
  }

  lemma TenthsBelow(share: nat, allowed: nat)
    requires share as real <= allowed as real * 0.7 < share as real + 1.0
    ensures 10 * share <= 7 * allowed < 10 * share + 10
  {
    assert (10 * share) as real == share as real * 10.0 && (7 * allowed) as real == allowed as real * 7.0;
  }

  // What the ratio leaves of n files, before rounding up.
  function Portion(n: nat, ratio: real): real {
    n as real * ratio
  }

  predicate RoundsUp(k: nat, n: nat, ratio: real) {
    Portion(n, ratio) <= k as real < Portion(n, ratio) + 1.0
  }

  // Of n candidates compaction keeps the least number not below the ratio's part.
  lemma KeptExact(n: nat, ratio: real)
    requires 0.0 < ratio <= 1.0
    ensures RoundsUp(Kept(n, ratio), n, ratio)
  {
    var given := n as real * (1.0 - ratio);
    assert given == n as real - n as real * ratio;
  }

  // With the background task's ratio: seven tenths, rounded up.
  lemma KeptBackground(n: nat)
    ensures 7 * n <= 10 * Kept(n, 0.7) < 7 * n + 10
  {
    KeptExact(n, 0.7);
    var kept := Kept(n, 0.7);
    assert (10 * kept) as real == kept as real * 10.0 && (7 * n) as real == n as real * 7.0;
  }

  /* ---------------------------------------------------- two tables for the merge */

  predicate LeavesTwo(n: nat, ratio: real) {
    Portion(n, ratio) > 1.0
  }

  lemma LeavesMore(a: nat, b: nat, ratio: real)
    requires a <= b && ratio > 0.0 && LeavesTwo(a, ratio)
    ensures LeavesTwo(b, ratio)
  {
    hide Portion;
    PortionMore(a, b, ratio);
  }

  lemma PortionMore(a: nat, b: nat, ratio: real)
    requires a <= b && ratio > 0.0
    ensures Portion(a, ratio) <= Portion(b, ratio)
  {
    var x, y := a as real, b as real;
    Scaled(x, y, ratio);
  }

  lemma Scaled(x: real, y: real, r: real)
    requires x <= y && r >= 0.0
    ensures x * r <= y * r
  {
    var d := y - x;
    assert d * r >= 0.0;
    assert (x + d) * r == x * r + d * r;
  }

  lemma KeptTwo(n: nat, ratio: real)
    requires 0.0 < ratio <= 1.0
    ensures Kept(n, ratio) >= 2 <==> LeavesTwo(n, ratio)
  {
    var given := n as real * (1.0 - ratio);
    assert given == n as real - n as real * ratio;
    var dropped := given.Floor;
    assert dropped as real <= given < (dropped + 1) as real;
    if n as real * ratio > 1.0 {
      assert given < (n - 1) as real;
    } else {
      assert given >= (n - 1) as real;
    }
  }

  // merge_tables asserts that it gets two tables. It does exactly when the ratio leaves more than one
  // of the candidates: the level's files but the newest, and the files pulled in.
  lemma SelectsTwo(byTime: seq<FileId>, pulled: seq<FileId>, ratio: real)
    requires byTime != [] && 0.0 < ratio <= 1.0
    ensures |Selected(byTime, pulled, ratio)| >= 2 <==> LeavesTwo(|byTime| - 1 + |pulled|, ratio)
  {
    hide Kept, LeavesTwo;
    KeptTwo(|byTime| - 1 + |pulled|, ratio);
  }

  // Whatever files a level that needs compaction has, two are selected.
  ghost predicate AlwaysTwo(opt: Options, l: nat, ratio: real)
    requires 0.0 < ratio <= 1.0
  {
    forall byTime, pulled | byTime != [] && NeedCompaction(opt, l, |byTime|, ratio) ::
        |Selected(byTime, pulled, ratio)| >= 2
  }

  // That is so exactly when the level has no share, or the ratio leaves more than one file of the share.
  lemma AlwaysTwoExact(opt: Options, l: nat, ratio: real)
    requires 0.0 < ratio <= 1.0
    ensures AlwaysTwo(opt, l, ratio) <==> Share(opt, l, ratio) == 0 || LeavesTwo(Share(opt, l, ratio), ratio)
  {
    hide Share, Selected, LeavesTwo;
    var share := Share(opt, l, ratio);
    if share > 0 && !LeavesTwo(share, ratio) {
      var byTime: seq<FileId> := seq(share + 1, i => i);
      SelectsTwo(byTime, [], ratio);
      assert NeedCompaction(opt, l, |byTime|, ratio) && |Selected(byTime, [], ratio)| < 2;
    } else {
      forall byTime: seq<FileId>, pulled: seq<FileId> | byTime != [] && NeedCompaction(opt, l, |byTime|, ratio)
        ensures |Selected(byTime, pulled, ratio)| >= 2
      {
        SelectsTwo(byTime, pulled, ratio);
        LeavesMore(share, |byTime| - 1 + |pulled|, ratio);
      }
    }
  }

  // With the full ratio: for every allowed number of files but one.
  lemma FullRatioSelectsTwo(opt: Options, l: nat)
    ensures AlwaysTwo(opt, l, 1.0) <==> l >= |opt.allowed| || opt.allowed[l] != 1
  {
    hide AlwaysTwo;
    AlwaysTwoExact(opt, l, 1.0);
    if l < |opt.allowed| {
      assert opt.allowed[l] as real * 1.0 == opt.allowed[l] as real;
    }
  }

  // With the background task's ratio: for every allowed number of files but two.
  lemma BackgroundRatioSelectsTwo(opt: Options, l: nat)
    ensures AlwaysTwo(opt, l, 0.7) <==> l >= |opt.allowed| || opt.allowed[l] != 2
    ensures forall byTime, pulled | byTime != [] :: |Selected(byTime, pulled, 0.7)| >= 2 <==> |byTime| + |pulled| >= 3
  {
    hide AlwaysTwo, Selected, Share;
    AlwaysTwoExact(opt, l, 0.7);
    ShareAt(opt, l);
    assert !LeavesTwo(0, 0.7) && !LeavesTwo(1, 0.7) && LeavesTwo(2, 0.7);
    if Share(opt, l, 0.7) >= 2 {
      LeavesMore(2, Share(opt, l, 0.7), 0.7);
    }
    forall byTime, pulled | byTime != [] ensures |Selected(byTime, pulled, 0.7)| >= 2 <==> |byTime| + |pulled| >= 3 {
      SelectsTwo(byTime, pulled, 0.7);
      if |byTime| - 1 + |pulled| >= 2 { LeavesMore(2, |byTime| - 1 + |pulled|, 0.7); }
    }
  }

  lemma ShareAt(opt: Options, l: nat)
    ensures Share(opt, l, 0.7) == 1 <==> l < |opt.allowed| && opt.allowed[l] == 2
  {
    if l < |opt.allowed| {
      var x := opt.allowed[l] as real * 0.7;
      assert x.Floor as real <= x < (x.Floor + 1) as real;
    }
  }

  /* ------------------------------------------------------------ a limit for the outputs */

  // A table builder asserts that its size limit is not zero. A level that needs compaction has a limit for
  // its outputs exactly when every level with a share has one below it.
  ghost predicate AlwaysLimited(opt: Options, ratio: real)
    requires ratio >= 0.0
  {
    forall l: nat, n: nat | l <= opt.maxLevel && NeedCompaction(opt, l, n, ratio) :: FileSize(opt, l + 1) != 0
  }

  lemma AlwaysLimitedExact(opt: Options, ratio: real)
    requires ratio >= 0.0
    ensures AlwaysLimited(opt, ratio) <==>
              forall l: nat | l <= opt.maxLevel && Share(opt, l, ratio) != 0 :: FileSize(opt, l + 1) != 0
  {
    hide Share, FileSize;
    if AlwaysLimited(opt, ratio) {
      forall l: nat | l <= opt.maxLevel && Share(opt, l, ratio) != 0 ensures FileSize(opt, l + 1) != 0 {
        assert NeedCompaction(opt, l, Share(opt, l, ratio) + 1, ratio);
      }
    }
  }

  // The default options: six levels have a share of files, five have a file size.
  function DefaultOptions(): Options {
    Options(4096, [8, 16, 16, 16, 16, 16],
            [0x100_0000, 0x800_0000, 0x1000_0000, 0x2000_0000, 0x4000_0000], 6)
  }

  lemma DefaultsUnlimited()
    ensures NeedCompaction(DefaultOptions(), 4, 17, 1.0) && FileSize(DefaultOptions(), 5) == 0
    ensures !AlwaysLimited(DefaultOptions(), 1.0)
  {
    hide AlwaysLimited;
    AlwaysLimitedExact(DefaultOptions(), 1.0);
    NeedsFull(DefaultOptions(), 4, 17);
    assert Share(DefaultOptions(), 4, 1.0) != 0;
  }

  // The one input: two files allowed, two files there, one of them selected.
  lemma BackgroundRatioSelectsOne(opt: Options, older: FileId, newer: FileId)
    requires opt.allowed == [2]
    ensures NeedCompaction(opt, 0, 2, 0.7) && Selected([older, newer], [], 0.7) == [older]
  {
    assert (2 as real * 0.7).Floor == 1;
    assert (1 as real * (1.0 - 0.7)).Floor == 0;
    assert [older, newer][..1] + [] == [older];
  }
}
