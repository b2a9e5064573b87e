/** The store and its guards: every run of the store is a run of guard operations, in which snapshots
    hold version guards, versions hold file guards, and nothing else does between two steps. */
module StoreGuards {
  import opened Bytes
  import opened TableImages
  import opened TableTheorems
  import opened Store
  import opened StoreInvariant
  import opened StoreRuns
  import G = Guarding
  import S = GuardSafety

  function Mirror(versions: seq<VersionRec>): (r: seq<G.Version>)
    ensures |r| == |versions|
    ensures forall i | 0 <= i < |versions| :: r[i] == G.Version(versions[i].id, versions[i].files)
  {
    if versions == [] then [] else [G.Version(versions[0].id, versions[0].files)] + Mirror(versions[1..])
  }

  // Every snapshot holds its version guard in a slot of its own, and all other slots are empty.
  ghost predicate HoldsSnaps(guards: seq<Option<G.VersionId>>, snaps: map<nat, Snapshot>, slots: map<nat, nat>) {
    && slots.Keys == snaps.Keys
    && (forall k | k in slots :: slots[k] < |guards| && guards[slots[k]] == Some(snaps[k].version))
    && (forall j, k | j in slots && k in slots && j != k :: slots[j] != slots[k])
    && (forall i | 0 <= i < |guards| && guards[i].Some? :: Owned(slots, i))
  }

  predicate Owned(slots: map<nat, nat>, i: nat) {
    exists k | k in slots :: slots[k] == i
  }

  // The guards of a store at rest: the same versions, files and counters, one version guard for each
  // snapshot and the current version, and no file guard outside the versions.
  ghost predicate Mirrors(g: G.State, s: State, slots: map<nat, nat>) {
    && s.versions != [] && g.versions == Mirror(s.versions) && g.reps == Reps(s.disk)
    && g.nextRep == s.nextFile && g.nextVersion == s.nextVersion
    && g.current == Some(s.versions[|s.versions| - 1].id)
    && HoldsSnaps(g.versionGuards, s.snaps, slots)
    && (forall r :: Some(r) !in g.fileGuards)
  }

  lemma PinsAreGuards(s: State, guards: seq<Option<G.VersionId>>, slots: map<nat, nat>)
    requires HoldsSnaps(guards, s.snaps, slots)
    ensures forall id: nat :: Some(id) in guards <==> Pinned(s, id)
  {
    forall id: nat ensures Some(id) in guards <==> Pinned(s, id) {
      if Some(id) in guards {
        var i :| 0 <= i < |guards| && guards[i] == Some(id);
        assert Owned(slots, i);
        var k :| k in slots && slots[k] == i;
        assert s.snaps[k].version == id;
      }
    }
  }

  // The guard operations lead from one state to the other.
  ghost predicate Reaches(g: G.State, ops: seq<G.Op>, g': G.State)
    decreases |ops|
  {
    if ops == [] then g' == g else G.Enabled(g, ops[0]) && Reaches(G.Step(g, ops[0]), ops[1..], g')
  }

  lemma {:induction false} ReachesConcat(g: G.State, a: seq<G.Op>, h: G.State, b: seq<G.Op>, g': G.State)
    requires Reaches(g, a, h) && Reaches(h, b, g')
    ensures Reaches(g, a + b, g')
    decreases |a|
  {
    hide G.Step, G.Enabled;
    if a == [] {
      assert a + b == b;
    } else {
      assert (a + b)[0] == a[0] && (a + b)[1..] == a[1..] + b;
      ReachesConcat(G.Step(g, a[0]), a[1..], h, b, g');
    }
  }

  lemma OneOp(g: G.State, op: G.Op)
    requires G.Enabled(g, op)
    ensures Reaches(g, [op], G.Step(g, op))
  {
    hide G.Step, G.Enabled;
    assert [op][1..] == [];
  }

  lemma {:induction false} ReachesKeeps(g: G.State, ops: seq<G.Op>, g': G.State)
    requires S.Inv(g) && Reaches(g, ops, g')
    ensures S.Inv(g')
    decreases |ops|
  {
    hide G.Step, G.Enabled, S.Inv;
    if ops != [] {
      S.StepKeeps(g, ops[0]);
      ReachesKeeps(G.Step(g, ops[0]), ops[1..], g');
    }
  }

  /* ----------------------------------------------------------------- collections */

  lemma {:induction false} OnlyGuardedFront(g: G.State, v: G.Version, rest: seq<G.Version>)
    ensures G.OnlyGuarded(g, [v] + rest) == (if G.Guarded(g, v.id) then [v] else []) + G.OnlyGuarded(g, rest)
  {
    hide G.Guarded;
    if rest == [] {
      assert [v] + rest == [v] && [v][..0] == [];
      assert G.OnlyGuarded(g, []) == [];
    } else {
      var front, last := rest[..|rest| - 1], rest[|rest| - 1];
      OnlyGuardedFront(g, v, front);
      assert ([v] + rest)[..|rest|] == [v] + front;
    }
  }

  lemma GuardedMirrored(g: G.State, s: State, id: nat)
    requires Some(id) in g.versionGuards <==> Pinned(s, id)
    ensures G.Guarded(g, id) <==> g.current == Some(id) || Pinned(s, id)
  {}

  lemma {:induction false} LiveMirrored(g: G.State, s: State, versions: seq<VersionRec>)
    requires versions != [] && g.current == Some(versions[|versions| - 1].id)
    requires forall id: nat :: Some(id) in g.versionGuards <==> Pinned(s, id)
    requires forall i | 0 <= i < |versions| - 1 :: versions[i].id != versions[|versions| - 1].id
    ensures G.OnlyGuarded(g, Mirror(versions)) == Mirror(LiveVersions(s, versions))
  {
    hide Pinned, G.Guarded, G.OnlyGuarded;
    var v, rest := versions[0], versions[1..];
    OnlyGuardedFront(g, G.Version(v.id, v.files), Mirror(rest));
    GuardedMirrored(g, s, v.id);
    if rest == [] {
      NothingMirrored(g);
    } else {
      LiveMirrored(g, s, rest);
      MirrorCons(v, LiveVersions(s, rest));
    }
  }

  lemma NothingMirrored(g: G.State)
    ensures Mirror([]) == [] && G.OnlyGuarded(g, []) == []
  {}

  lemma MirrorCons(v: VersionRec, rest: seq<VersionRec>)
    ensures Mirror([v] + rest) == [G.Version(v.id, v.files)] + Mirror(rest)
  {
    assert ([v] + rest)[1..] == rest;
  }

  // Collecting in the store and collecting by guards keep the same versions and the same files.
  lemma CollectMirrored(g: G.State, s: State, slots: map<nat, nat>)
    requires S.Inv(g) && Mirrors(g, s, slots)
    ensures Mirrors(G.DoGC(g), CollectGarbage(s), slots) && Reaches(g, [G.VersionGC, G.FileGC], G.DoGC(g))
  {
    hide S.Inv, LiveVersions, Pinned, Mirror, G.OnlyGuarded, G.DoGC, CollectGarbage, S.StillHeld, HoldsSnaps, Reps;
    var g', s' := G.DoGC(g), CollectGarbage(s);
    PinsAreGuards(s, g.versionGuards, slots);
    S.DoGCExact(g);
    IdsMirrored(g, s, slots);
    LiveMirrored(g, s, s.versions);
    CollectedParts(g, s);
    LastLive(s, s.versions);
    forall r ensures r in g'.reps <==> r in s'.disk {
      HeldMirrored(g, s, slots, r);
    }
    CollectedReps(g, s, g', s');
    CollectRun(g);
  }

  lemma CollectedReps(g: G.State, s: State, g': G.State, s': State)
    requires g.reps == Reps(s.disk) && g' == G.DoGC(g) && s' == CollectGarbage(s)
    requires forall r :: r in g'.reps <==> r in s'.disk
    ensures g'.reps == Reps(s'.disk) && g'.nextRep == g.nextRep && g'.nextVersion == g.nextVersion
    ensures g'.fileGuards == g.fileGuards && g'.versionGuards == g.versionGuards && g'.current == g.current
    ensures s'.nextFile == s.nextFile && s'.nextVersion == s.nextVersion
  {
    hide LiveVersions, G.OnlyGuarded, G.Referenced;
    CollectFrame(s);
  }

  lemma CollectRun(g: G.State)
    ensures Reaches(g, [G.VersionGC, G.FileGC], G.DoGC(g))
  {
    hide G.CollectVersions, G.CollectFiles;
    OneOp(g, G.VersionGC);
    OneOp(G.CollectVersions(g), G.FileGC);
    assert [G.VersionGC] + [G.FileGC] == [G.VersionGC, G.FileGC];
    ReachesConcat(g, [G.VersionGC], G.CollectVersions(g), [G.FileGC], G.DoGC(g));
  }

  lemma CollectedParts(g: G.State, s: State)
    ensures G.DoGC(g).versions == G.OnlyGuarded(g, g.versions)
    ensures CollectGarbage(s).versions == LiveVersions(s, s.versions) && CollectGarbage(s).snaps == s.snaps
  {
    hide LiveVersions, G.OnlyGuarded;
  }

  lemma IdsMirrored(g: G.State, s: State, slots: map<nat, nat>)
    requires S.Inv(g) && Mirrors(g, s, slots)
    ensures forall i | 0 <= i < |s.versions| - 1 :: s.versions[i].id != s.versions[|s.versions| - 1].id
  {
    hide S.RegistryOk, S.GuardsOk, S.ListsOk, Pinned;
    forall i | 0 <= i < |s.versions| - 1 ensures s.versions[i].id != s.versions[|s.versions| - 1].id {
      assert g.versions[i].id < g.versions[|s.versions| - 1].id;
    }
  }

  lemma {:induction false} LastLive(s: State, versions: seq<VersionRec>)
    requires versions != []
    ensures var live := LiveVersions(s, versions); live != [] && live[|live| - 1] == versions[|versions| - 1]
  {
    hide Pinned;
    if |versions| > 1 {
      LastLive(s, versions[1..]);
    }
  }

  lemma HeldMirrored(g: G.State, s: State, slots: map<nat, nat>, r: FileId)
    requires S.Inv(g) && Mirrors(g, s, slots) && G.OnlyGuarded(g, g.versions) == Mirror(LiveVersions(s, s.versions))
    ensures S.StillHeld(g, r) <==> r in CollectGarbage(s).disk
  {
    hide S.RegistryOk, S.Ascending, LiveVersions, Pinned, G.OnlyGuarded, G.Guarded, Mirror;
    var live := LiveVersions(s, s.versions);
    S.OnlyGuardedMeans(g, g.versions);
    S.CollectVersionsKeeps(g);
    S.HeldAfter(g, G.CollectVersions(g), r);
    if r in CollectGarbage(s).disk {
      var i :| 0 <= i < |live| && r in live[i].files;
      assert r in Mirror(live)[i].files;
    }
    if S.StillHeld(g, r) {
      var k :| 0 <= k < |Mirror(live)| && r in Mirror(live)[k].files;
      assert Mirror(live)[k] in g.versions;
      var j :| 0 <= j < |g.versions| && g.versions[j] == Mirror(live)[k];
    }
  }

  /* ------------------------------------------------------------------- snapshots */

  lemma MoreSlots(guards: seq<Option<G.VersionId>>, snaps: map<nat, Snapshot>, slots: map<nat, nat>, k: nat,
                  snap: Snapshot)
    requires HoldsSnaps(guards, snaps, slots) && k !in slots
    ensures HoldsSnaps(guards + [Some(snap.version)], snaps[k := snap], slots[k := |guards|])
  {
    var guards', slots' := guards + [Some(snap.version)], slots[k := |guards|];
    assert slots'.Keys == snaps[k := snap].Keys;
    forall i | 0 <= i < |guards'| && guards'[i].Some? ensures Owned(slots', i) {
      if i == |guards| {
        assert k in slots' && slots'[k] == i;
      } else {
        assert Owned(slots, i);
        var j :| j in slots && slots[j] == i;
        assert j in slots' && slots'[j] == i;
      }
    }
  }

  lemma SameSlots(guards: seq<Option<G.VersionId>>, guards': seq<Option<G.VersionId>>, snaps: map<nat, Snapshot>,
                  slots: map<nat, nat>, k: nat, snap: Snapshot)
    requires HoldsSnaps(guards, snaps, slots) && k in slots && |guards'| == |guards| + 1
    requires guards'[slots[k]] == Some(snap.version) && guards'[|guards|] == None
    requires forall i | 0 <= i < |guards| && i != slots[k] :: guards'[i] == guards[i]
    ensures HoldsSnaps(guards', snaps[k := snap], slots)
  {
    assert snaps[k := snap].Keys == snaps.Keys;
    forall i | 0 <= i < |guards'| && guards'[i].Some? ensures Owned(slots, i) {
      if i == slots[k] {
        assert k in slots;
      } else {
        assert i < |guards| && guards[i].Some?;
      }
    }
  }

  lemma StillOwned(slots: map<nat, nat>, k: nat, i: nat)
    requires Owned(slots, i) && k in slots && slots[k] != i
    ensures Owned(slots - {k}, i)
  {
    var j :| j in slots && slots[j] == i;
    assert j in slots - {k};
  }

  lemma FewerSlots(guards: seq<Option<G.VersionId>>, snaps: map<nat, Snapshot>, slots: map<nat, nat>, k: nat)
    requires HoldsSnaps(guards, snaps, slots)
    ensures k in slots ==> HoldsSnaps(guards[slots[k] := None], snaps - {k}, slots - {k})
    ensures k !in slots ==> snaps - {k} == snaps
  {
    hide Owned;
    if k in slots {
      var guards', slots' := guards[slots[k] := None], slots - {k};
      assert slots'.Keys == (snaps - {k}).Keys;
      forall i | 0 <= i < |guards'| && guards'[i].Some? ensures Owned(slots', i) {
        assert Owned(slots, i);
        StillOwned(slots, k, i);
      }
    }
  }

  // get_snapshot: a guard of the current version, moved over the old one if the snapshot is replaced.
  lemma TakeMirrored(g: G.State, s: State, k: nat, slots: map<nat, nat>)
    returns (ops: seq<G.Op>, g': G.State, slots': map<nat, nat>)
    requires Mirrors(g, s, slots) && 1 <= s.nextSeq <= 0x1_0000_0000
    ensures Reaches(g, ops, g') && Mirrors(g', TakeSnapshot(s, k), slots')
  {
    hide Mirror, Reps, HoldsSnaps, Reaches;
    var n, snap := |g.versionGuards|, Snapshot(s.nextSeq - 1, s.versions[|s.versions| - 1].id);
    var g1 := G.WithCurrent(g);
    OneOp(g, G.TakeCurrent);
    SlotRange(g.versionGuards, s.snaps, slots);
    if k in slots {
      var op := G.MoveV(slots[k], n);
      OneOp(g1, op);
      ops, g', slots' := [G.TakeCurrent] + [op], G.Step(g1, op), slots;
      ReachesConcat(g, [G.TakeCurrent], g1, [op], g');
      SameSlots(g.versionGuards, g'.versionGuards, s.snaps, slots, k, snap);
    } else {
      ops, g', slots' := [G.TakeCurrent], g1, slots[k := n];
      MoreSlots(g.versionGuards, s.snaps, slots, k, snap);
    }
  }

  lemma SlotRange(guards: seq<Option<G.VersionId>>, snaps: map<nat, Snapshot>, slots: map<nat, nat>)
    requires HoldsSnaps(guards, snaps, slots)
    ensures forall k | k in slots :: slots[k] < |guards|
  {}

  lemma DropMirrored(g: G.State, s: State, k: nat, slots: map<nat, nat>)
    returns (ops: seq<G.Op>, g': G.State, slots': map<nat, nat>)
    requires Mirrors(g, s, slots)
    ensures Reaches(g, ops, g') && Mirrors(g', DropSnapshot(s, k), slots') && Released(g, slots, k, g', slots')
  {
    hide Mirror, Reps, HoldsSnaps, Reaches;
    SlotRange(g.versionGuards, s.snaps, slots);
    FewerSlots(g.versionGuards, s.snaps, slots, k);
    if k in slots {
      var op := G.ReleaseV(slots[k]);
      OneOp(g, op);
      ops, g', slots' := [op], G.Step(g, op), slots - {k};
    } else {
      NoOp(g);
      ops, g', slots' := [], g, slots;
    }
  }

  // The slot of k is empty now, and every other one as before.
  predicate Released(g: G.State, slots: map<nat, nat>, k: nat, g': G.State, slots': map<nat, nat>) {
    && slots' == slots - {k}
    && g'.versionGuards == if k in slots && slots[k] < |g.versionGuards| then g.versionGuards[slots[k] := None]
                           else g.versionGuards
  }

  lemma NoOp(g: G.State)
    ensures Reaches(g, [], g)
  {}

  /* ---------------------------------------------------------------- new versions */

  function Somes(rs: seq<G.Rep>): (r: seq<Option<G.Rep>>)
    ensures |r| == |rs|
  {
    seq(|rs|, i requires 0 <= i < |rs| => Some(rs[i]))
  }

  function GetOps(files: seq<G.File>): seq<G.Op> {
    if files == [] then [] else GetOps(files[..|files| - 1]) + [G.GetFile(files[|files| - 1])]
  }

  // A guard of every file, one after the other.
  function Handed(g: G.State, files: seq<G.File>): G.State {
    if files == [] then g else G.WithFile(Handed(g, files[..|files| - 1]), files[|files| - 1])
  }

  lemma {:induction false} HandedRun(g: G.State, files: seq<G.File>)
    ensures Reaches(g, GetOps(files), Handed(g, files))
  {
    hide G.WithFile;
    if files == [] {
      NoOp(g);
    } else {
      var front, op := files[..|files| - 1], G.GetFile(files[|files| - 1]);
      HandedRun(g, front);
      OneOp(Handed(g, front), op);
      ReachesConcat(g, GetOps(front), Handed(g, front), [op], Handed(g, files));
    }
  }

  function FilesOf(g: G.State, rs: seq<G.Rep>): seq<G.File>
    requires forall r | r in rs :: r in g.reps
  {
    seq(|rs|, i requires 0 <= i < |rs| => assert rs[i] in rs; g.reps[rs[i]])
  }

  // Guards of registered files.
  lemma {:induction false} HandedOld(g: G.State, rs: seq<G.Rep>)
    requires S.RegistryOk(g) && forall r | r in rs :: r in g.reps
    ensures Handed(g, FilesOf(g, rs)) == g.(fileGuards := g.fileGuards + Somes(rs))
  {
    if rs == [] {
      assert FilesOf(g, rs) == [] && g.fileGuards + Somes(rs) == g.fileGuards;
    } else {
      var front, r := rs[..|rs| - 1], rs[|rs| - 1];
      assert r in rs;
      HandedOld(g, front);
      assert FilesOf(g, rs)[..|rs| - 1] == FilesOf(g, front);
      assert Somes(rs) == Somes(front) + [Some(r)];
    }
  }

  function NewNames(level: nat, first: nat, n: nat): seq<G.File> {
    seq(n, i requires 0 <= i < n => G.File(level, first + i))
  }

  function Ids(first: nat, n: nat): seq<G.Rep> {
    seq(n, i requires 0 <= i < n => first + i)
  }

  ghost predicate NumberedById(g: G.State) {
    S.RegistryOk(g) && forall r | r in g.reps :: g.reps[r].id == r
  }

  // n new files of this level are registered under the next ids, a guard of each handed out.
  ghost predicate Registers(g: G.State, level: nat, n: nat, h: G.State) {
    && NumberedById(h) && h.nextRep == g.nextRep + n
    && h.reps == g.reps + (map r | g.nextRep <= r < g.nextRep + n :: G.File(level, r))
    && h.fileGuards == g.fileGuards + Somes(Ids(g.nextRep, n))
    && h.versionGuards == g.versionGuards && h.versions == g.versions && h.current == g.current
    && h.nextVersion == g.nextVersion
  }

  lemma {:induction false} HandedNew(g: G.State, level: nat, n: nat)
    requires NumberedById(g)
    ensures Registers(g, level, n, Handed(g, NewNames(level, g.nextRep, n)))
  {
    hide Registers, NumberedById, G.WithFile;
    if n == 0 {
      RegistersNone(g, level);
      assert NewNames(level, g.nextRep, n) == [];
    } else {
      HandedNew(g, level, n - 1);
      NamesSnoc(level, g.nextRep, n);
      RegistersNext(g, level, n - 1, Handed(g, NewNames(level, g.nextRep, n - 1)));
    }
  }

  lemma RegistersNone(g: G.State, level: nat)
    requires NumberedById(g)
    ensures Registers(g, level, 0, g)
  {
    hide NumberedById;
    assert g.fileGuards + Somes(Ids(g.nextRep, 0)) == g.fileGuards;
  }

  lemma NamesSnoc(level: nat, first: nat, n: nat)
    requires n > 0
    ensures var names := NewNames(level, first, n);
            && |names| == n && names[..n - 1] == NewNames(level, first, n - 1)
            && names[n - 1] == G.File(level, first + n - 1)
  {}

  lemma RegistersNext(g: G.State, level: nat, n: nat, h: G.State)
    requires Registers(g, level, n, h)
    ensures Registers(g, level, n + 1, G.WithFile(h, G.File(level, g.nextRep + n)))
  {
    hide G.WithFile, NumberedById;
    RegisterNext(h, G.File(level, g.nextRep + n));
    assert Somes(Ids(g.nextRep, n + 1)) == Somes(Ids(g.nextRep, n)) + [Some(h.nextRep)];
  }

  lemma RegisterNext(g: G.State, file: G.File)
    requires NumberedById(g) && file.id == g.nextRep
    ensures var h := G.WithFile(g, file);
            && NumberedById(h) && h.nextRep == g.nextRep + 1 && h.reps == g.reps[g.nextRep := file]
            && h.fileGuards == g.fileGuards + [Some(g.nextRep)]
            && h.versionGuards == g.versionGuards && h.versions == g.versions && h.current == g.current
            && h.nextVersion == g.nextVersion
  {
    assert file !in g.names;
  }

  function ReleaseOps(base: nat, m: nat): seq<G.Op> {
    if m == 0 then [] else ReleaseOps(base, m - 1) + [G.Release(base + m - 1)]
  }

  function Nones(m: nat): seq<Option<G.Rep>> {
    seq(m, _ => None)
  }

  lemma {:induction false} ReleaseRun(g: G.State, base: nat, m: nat)
    requires base + m <= |g.fileGuards|
    ensures Reaches(g, ReleaseOps(base, m),
                    g.(fileGuards := g.fileGuards[..base] + Nones(m) + g.fileGuards[base + m..]))
  {
    if m == 0 {
      assert g.fileGuards[..base] + Nones(0) + g.fileGuards[base..] == g.fileGuards;
      NoOp(g);
    } else {
      ReleaseRun(g, base, m - 1);
      var h := g.(fileGuards := g.fileGuards[..base] + Nones(m - 1) + g.fileGuards[base + m - 1..]);
      var op := G.Release(base + m - 1);
      OneOp(h, op);
      assert h.fileGuards[base + m - 1 := None] == g.fileGuards[..base] + Nones(m) + g.fileGuards[base + m..];
      ReachesConcat(g, ReleaseOps(base, m - 1), h, [op], G.Step(h, op));
    }
  }

  lemma PickedIds(guards: seq<Option<G.Rep>>, rs: seq<G.Rep>, base: nat)
    requires base + |rs| <= |guards| && forall i | 0 <= i < |rs| :: guards[base + i] == Some(rs[i])
    ensures G.AllSome(guards, Ids(base, |rs|)) && G.Picked(guards, Ids(base, |rs|)) == rs
  {
    var picks := Ids(base, |rs|);
    forall p | p in picks ensures p < |guards| && guards[p].Some? {
      var i :| 0 <= i < |rs| && picks[i] == p;
      assert guards[base + i] == Some(rs[i]);
    }
    assert G.AllSome(guards, picks);
    forall i | 0 <= i < |rs| ensures G.Picked(guards, picks)[i] == rs[i] {
      assert picks[i] == base + i;
      assert guards[base + i] == Some(rs[i]);
    }
  }

  // Only the new version's list is changed by the delta.
  lemma OnlyNewest(versions: seq<G.Version>, v: G.Version, reps: map<G.Rep, G.File>, added: seq<G.Rep>,
                   compacted: seq<G.Rep>)
    requires forall w | w in versions :: w.id != v.id
    ensures G.Changed(versions + [v], v.id, reps, added, compacted)
         == versions + [G.Version(v.id, G.WithDelta(reps, v.files, added, compacted))]
  {
    hide G.WithDelta;
    forall i | 0 <= i < |versions| ensures versions[i].id != v.id {
      assert versions[i] in versions;
    }
  }

  // The guards an installation works with: of the files compacted and of the files written.
  lemma HandBoth(g: G.State, level: nat, n: nat, gone: seq<G.Rep>) returns (ops: seq<G.Op>, h: G.State)
    requires NumberedById(g) && forall r | r in gone :: r in g.reps
    ensures Reaches(g, ops, h) && h.nextRep == g.nextRep + n
    ensures h.reps == g.reps + (map r | g.nextRep <= r < g.nextRep + n :: G.File(level, r))
    ensures h.fileGuards == g.fileGuards + Somes(gone) + Somes(Ids(g.nextRep, n))
    ensures h.versionGuards == g.versionGuards && h.versions == g.versions && h.current == g.current
    ensures h.nextVersion == g.nextVersion
  {
    hide G.WithFile, Reaches, S.RegistryOk, Handed, GetOps;
    var olds, news := FilesOf(g, gone), NewNames(level, g.nextRep, n);
    HandedOld(g, gone);
    HandedRun(g, olds);
    var h1 := Handed(g, olds);
    GuardsAside(g, h1);
    HandedNew(h1, level, n);
    HandedRun(h1, news);
    h := Handed(h1, news);
    ops := GetOps(olds) + GetOps(news);
    ReachesConcat(g, GetOps(olds), h1, GetOps(news), h);
  }

  lemma GuardsAside(g: G.State, h: G.State)
    requires NumberedById(g) && h == g.(fileGuards := h.fileGuards)
    ensures NumberedById(h)
  {}

  // A new version is added, the delta applied to it, and its guard dropped.
  lemma AddAndApply(h: G.State, added: seq<G.Rep>, gone: seq<G.Rep>, base: nat) returns (ops: seq<G.Op>, g: G.State)
    requires h.versions != [] && (forall w | w in h.versions :: w.id < h.nextVersion)
    requires |h.fileGuards| == base + |gone| + |added| && h.fileGuards[base..] == Somes(gone) + Somes(added)
    ensures Reaches(h, ops, g)
    ensures g == h.(versions := h.versions +
                                [G.Version(h.nextVersion,
                                           G.WithDelta(h.reps, h.versions[|h.versions| - 1].files, added, gone))],
                    current := Some(h.nextVersion), nextVersion := h.nextVersion + 1,
                    versionGuards := h.versionGuards + [None])
  {
    hide G.WithDelta, Reaches, G.Changed;
    var v := |h.versionGuards|;
    var h1 := G.Step(h, G.AddVersion);
    OneOp(h, G.AddVersion);
    PicksOf(h.fileGuards, gone, added, base);
    var apply := G.Apply(v, Ids(base + |gone|, |added|), Ids(base, |gone|));
    OneOp(h1, apply);
    var h2 := G.Step(h1, apply);
    OnlyNewest(h.versions, G.Version(h.nextVersion, h.versions[|h.versions| - 1].files), h.reps, added, gone);
    OneOp(h2, G.ReleaseV(v));
    g := G.Step(h2, G.ReleaseV(v));
    ReachesConcat(h, [G.AddVersion], h1, [apply], h2);
    ReachesConcat(h, [G.AddVersion] + [apply], h2, [G.ReleaseV(v)], g);
    ops := [G.AddVersion] + [apply] + [G.ReleaseV(v)];
  }

  lemma PicksOf(guards: seq<Option<G.Rep>>, gone: seq<G.Rep>, added: seq<G.Rep>, base: nat)
    requires |guards| == base + |gone| + |added| && guards[base..] == Somes(gone) + Somes(added)
    ensures G.AllSome(guards, Ids(base, |gone|)) && G.Picked(guards, Ids(base, |gone|)) == gone
    ensures G.AllSome(guards, Ids(base + |gone|, |added|)) && G.Picked(guards, Ids(base + |gone|, |added|)) == added
  {
    hide Ids, G.AllSome, G.Picked;
    forall i | 0 <= i < |gone| ensures guards[base + i] == Some(gone[i]) {
      assert guards[base..][i] == Some(gone[i]);
    }
    forall i | 0 <= i < |added| ensures guards[base + |gone| + i] == Some(added[i]) {
      assert guards[base..][|gone| + i] == Some(added[i]);
    }
    PickedIds(guards, gone, base);
    PickedIds(guards, added, base + |gone|);
  }

  // Writing tables and installing them is a sequence of guard operations after which no guard of it is left.
  lemma InstallMirrored(g: G.State, s: State, level: nat, tables: Tables, gone: seq<FileId>, slots: map<nat, nat>)
    returns (ops: seq<G.Op>, g': G.State)
    requires S.Inv(g) && Mirrors(g, s, slots) && forall f | f in gone :: f in s.disk
    ensures Reaches(g, ops, g') && Mirrors(g', Install(s, level, tables, gone), slots)
  {
    hide Reaches, G.WithDelta, HoldsSnaps, Mirror, S.Inv, Reps, Ids, Somes;
    var n, base := |tables|, |g.fileGuards|;
    GuardFacts(g, s, slots);
    RepsAreDisk(s);
    var ops1, h := HandBoth(g, level, n, gone);
    GuardsBehind(g.fileGuards, Somes(gone) + Somes(Ids(g.nextRep, n)), h.fileGuards);
    IdsLength(g.nextRep, n);
    assert g.fileGuards + Somes(gone) + Somes(Ids(g.nextRep, n)) ==
             g.fileGuards + (Somes(gone) + Somes(Ids(g.nextRep, n)));
    var ops2, k := AddAndApply(h, Ids(g.nextRep, n), gone, base);
    ReleaseRun(k, base, |gone| + n);
    g' := k.(fileGuards := k.fileGuards[..base] + Nones(|gone| + n) + k.fileGuards[base + (|gone| + n)..]);
    ReachesConcat(g, ops1, h, ops2, k);
    ReachesConcat(g, ops1 + ops2, k, ReleaseOps(base, |gone| + n), g');
    ops := ops1 + ops2 + ReleaseOps(base, |gone| + n);
    NoGuardsLeft(g.fileGuards, g'.fileGuards, |gone| + n);
    EmptySlotMore(g.versionGuards, s.snaps, slots);
    InstalledMirror(g, s, level, tables, gone, h.reps);
  }

  lemma IdsLength(first: nat, n: nat)
    ensures |Ids(first, n)| == n
  {}

  lemma RepsAreDisk(s: State)
    ensures Reps(s.disk).Keys == s.disk.Keys
  {}

  lemma GuardFacts(g: G.State, s: State, slots: map<nat, nat>)
    requires S.Inv(g) && Mirrors(g, s, slots)
    ensures NumberedById(g) && g.versions != [] && forall w | w in g.versions :: w.id < g.nextVersion
  {
    hide HoldsSnaps, S.GuardsOk, S.Ascending, Mirror;
  }

  lemma GuardsBehind(a: seq<Option<G.Rep>>, b: seq<Option<G.Rep>>, all: seq<Option<G.Rep>>)
    ensures all == a + b ==> all[|a|..] == b && all[..|a|] == a
  {}

  lemma NoGuardsLeft(before: seq<Option<G.Rep>>, after: seq<Option<G.Rep>>, m: nat)
    requires (forall r :: Some(r) !in before) && after == before + Nones(m) + []
    ensures forall r :: Some(r) !in after
  {}

  lemma EmptySlotMore(guards: seq<Option<G.VersionId>>, snaps: map<nat, Snapshot>, slots: map<nat, nat>)
    requires HoldsSnaps(guards, snaps, slots)
    ensures HoldsSnaps(guards + [None], snaps, slots)
  {
    hide Owned;
  }

  // The installed version's list is the delta's result on the guards' side as well.
  lemma InstalledMirror(g: G.State, s: State, level: nat, tables: Tables, gone: seq<FileId>, reps: map<G.Rep, G.File>)
    requires s.versions != [] && g.versions == Mirror(s.versions) && g.reps == Reps(s.disk)
    requires g.nextRep == s.nextFile && g.nextVersion == s.nextVersion
    requires reps == g.reps + (map r | g.nextRep <= r < g.nextRep + |tables| :: G.File(level, r))
    ensures var s' := Install(s, level, tables, gone);
            && s'.versions != [] && reps == Reps(s'.disk) && s'.nextFile == s.nextFile + |tables|
            && s'.nextVersion == s.nextVersion + 1
            && s'.snaps == s.snaps && s'.versions[|s'.versions| - 1].id == s.nextVersion
            && Mirror(s'.versions) == g.versions +
                 [G.Version(g.nextVersion,
                            G.WithDelta(reps, g.versions[|g.versions| - 1].files, Ids(g.nextRep, |tables|), gone))]
  {
    hide G.WithDelta, Mirror, Reps, NewFiles, Ids, NewIds;
    NewReps(s, level, tables);
    SameIds(s, |tables|);
    var v := VersionRec(s.nextVersion, G.WithDelta(reps, Current(s), NewIds(s, |tables|), gone));
    MirrorSnoc(s.versions, v);
  }

  lemma NewReps(s: State, level: nat, tables: Tables)
    ensures Reps(s.disk + NewFiles(s, level, tables))
         == Reps(s.disk) + (map r | s.nextFile <= r < s.nextFile + |tables| :: G.File(level, r))
  {
    hide NewIds;
    NewIdsMean(s, |tables|);
  }

  lemma SameIds(s: State, n: nat)
    ensures NewIds(s, n) == Ids(s.nextFile, n)
  {}

  lemma {:induction false} MirrorSnoc(versions: seq<VersionRec>, v: VersionRec)
    ensures Mirror(versions + [v]) == Mirror(versions) + [G.Version(v.id, v.files)]
  {
    if versions == [] {
      assert versions + [v] == [v] && [v][1..] == [];
    } else {
      MirrorSnoc(versions[1..], v);
      assert (versions + [v])[1..] == versions[1..] + [v];
    }
  }

  /* ------------------------------------------------------------------------ runs */

  lemma InitMirrored()
    ensures S.Inv(G.Init()) && Mirrors(G.Init(), Store.Init(), map[])
  {
    S.InitHolds();
    assert Mirror([VersionRec(0, [])]) == [G.Version(0, [])] + Mirror([]);
  }

  // Every step of the store is a sequence of guard operations; a collection is the guards' collection.
  lemma StepMirrored(cfg: TableConfig, opt: Options, s: State, step: Step, s': State, g: G.State, slots: map<nat, nat>)
    returns (ops: seq<G.Op>, g': G.State, slots': map<nat, nat>)
    requires Next(cfg, opt, s, step, s') && S.Inv(g) && Mirrors(g, s, slots)
    ensures Reaches(g, ops, g') && Mirrors(g', s', slots')
    ensures step.DoCollect? ==> ops == [G.VersionGC, G.FileGC]
    ensures step.DoDrop? ==> Released(g, slots, step.k, g', slots')
  {
    hide S.Inv, Reaches, HoldsSnaps, Mirror, Reps, CompactStep, Compacts, Install, CollectGarbage, PutAll, Selected,
         WellFormed, G.DoGC;
    ops, g', slots' := [], g, slots;
    NoOp(g);
    match step
    case DoWrite(batch) => PutKeepsFiles(s, batch);
    case DoFlush(tables) =>
      if s.mem != [] {
        var s0 := s.(mem := [], memBytes := 0);
        ops, g' := InstallMirrored(g, s0, 0, tables, [], slots);
        FlushInstalls(cfg, s, tables, s');
      }
    case DoCompact(level, ratio, byTime, pulled, tables) =>
      StepCompacts(cfg, opt, s, level, ratio, byTime, pulled, tables, s');
      var sel := Selected(byTime, pulled, ratio);
      CompactsSome(cfg, s, sel, tables);
      ops, g' := InstallMirrored(g, s, level + 1, tables, sel, slots);
    case DoCollect =>
      CollectMirrored(g, s, slots);
      ops, g' := [G.VersionGC, G.FileGC], G.DoGC(g);
    case DoTake(k) => ops, g', slots' := TakeMirrored(g, s, k, slots);
    case DoDrop(k) => ops, g', slots' := DropMirrored(g, s, k, slots);
  }

  lemma {:induction false} PutKeepsFiles(s: State, batch: seq<Write>)
    requires s.nextSeq + |batch| <= 0x1_0000_0000
    ensures var s' := PutAll(s, batch);
            && s'.versions == s.versions && s'.disk == s.disk && s'.snaps == s.snaps
            && s'.nextFile == s.nextFile && s'.nextVersion == s.nextVersion
    decreases |batch|
  {
    if batch != [] {
      PutKeepsFiles(PutOne(s, batch[0]), batch[1..]);
    }
  }

  lemma FlushInstalls(cfg: TableConfig, s: State, tables: Tables, s': State)
    requires FlushStep(cfg, s, tables, s') && s.mem != [] && s.versions != []
    ensures var mid := Install(s.(mem := [], memBytes := 0), 0, tables, []);
            && s'.versions == mid.versions && s'.disk == mid.disk && s'.snaps == mid.snaps
            && s'.nextFile == mid.nextFile
            && s'.nextVersion == mid.nextVersion
  {
    hide G.WithDelta, WellFormed;
  }

  // Whatever run the store makes, the guards make a run that ends in the same versions, files and snapshots.
  lemma {:induction false} RunMirrored(cfg: TableConfig, opt: Options, states: seq<State>, steps: seq<Step>)
    returns (ops: seq<G.Op>, g: G.State, slots: map<nat, nat>)
    requires Run(cfg, opt, states, steps) && states[0] == Store.Init()
    ensures Reaches(G.Init(), ops, g) && S.Inv(g) && Mirrors(g, states[|steps|], slots)
    decreases |steps|
  {
    hide S.Inv, Reaches, Mirrors, Next, Store.Init, G.Init;
    if steps == [] {
      InitMirrored();
      NoOp(G.Init());
      ops, g, slots := [], G.Init(), map[];
    } else {
      var n := |steps| - 1;
      RunPrefix(cfg, opt, states, steps);
      var ops0, g0, slots0 := RunMirrored(cfg, opt, states[..n + 1], steps[..n]);
      var more;
      more, g, slots := StepMirrored(cfg, opt, states[n], steps[n], states[n + 1], g0, slots0);
      ops := ops0 + more;
      ReachesConcat(G.Init(), ops0, g0, more, g);
      ReachesKeeps(g0, more, g);
    }
  }
}
