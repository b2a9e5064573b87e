/** What no interleaving of guard operations, version changes and collections can break, and what
    a whole garbage collection leaves behind. */
module GuardSafety {
  import opened Bytes
  import opened Guarding

  predicate HasVersion(versions: seq<Version>, id: VersionId) {
    exists k | 0 <= k < |versions| :: versions[k].id == id
  }

  predicate Ascending(versions: seq<Version>) {
    forall i, j | 0 <= i < j < |versions| :: versions[i].id < versions[j].id
  }

  // Reps and names are each other's inverse, and every registered file is on disk.
  predicate RegistryOk(s: State) {
    && (forall r | r in s.reps :: r < s.nextRep && s.reps[r] in s.names && s.names[s.reps[r]] == r)
    && (forall f | f in s.names :: s.names[f] in s.reps && s.reps[s.names[f]] == f && f in s.disk)
  }

  ghost predicate GuardsOk(s: State) {
    && (forall r | Some(r) in s.fileGuards :: r in s.reps)
    && (forall id | Some(id) in s.versionGuards :: HasVersion(s.versions, id))
  }

  predicate ListsOk(s: State, versions: seq<Version>) {
    forall k | 0 <= k < |versions| :: versions[k].id < s.nextVersion && forall r | r in versions[k].files :: r in s.reps
  }

  predicate CurrentIsLast(s: State) {
    s.versions != [] && s.current == Some(s.versions[|s.versions| - 1].id)
  }

  ghost predicate Inv(s: State) {
    RegistryOk(s) && GuardsOk(s) && ListsOk(s, s.versions) && Ascending(s.versions) && CurrentIsLast(s)
  }

  lemma InitHolds()
    ensures Inv(Init())
  {}

  /* -------------------------------------------------------------- collections */

  lemma {:induction false} OnlyGuardedMeans(s: State, versions: seq<Version>)
    ensures forall v :: v in OnlyGuarded(s, versions) <==> v in versions && Guarded(s, v.id)
  {
    hide Guarded;
    if versions != [] {
      var front, last := versions[..|versions| - 1], versions[|versions| - 1];
      OnlyGuardedMeans(s, front);
      forall v ensures v in versions <==> v in front || v == last {
        assert versions == front + [last];
      }
    }
  }

  lemma {:induction false} OnlyGuardedAscends(s: State, versions: seq<Version>)
    requires Ascending(versions)
    ensures Ascending(OnlyGuarded(s, versions))
  {
    hide Guarded;
    if versions != [] {
      var front, last := versions[..|versions| - 1], versions[|versions| - 1];
      OnlyGuardedAscends(s, front);
      OnlyGuardedMeans(s, front);
      var kept := OnlyGuarded(s, front);
      forall k | 0 <= k < |kept| ensures kept[k].id < last.id {
        assert kept[k] in kept;
        var i :| 0 <= i < |front| && front[i] == kept[k];
        assert versions[i] == front[i];
      }
    }
  }

  // Collecting versions drops no version that a guard points to, the current one among them.
  lemma CollectVersionsKeeps(s: State)
    requires Inv(s)
    ensures Inv(CollectVersions(s))
    ensures forall v :: v in CollectVersions(s).versions <==> v in s.versions && Guarded(s, v.id)
  {
    hide Ascending;
    var s' := CollectVersions(s);
    OnlyGuardedMeans(s, s.versions);
    OnlyGuardedAscends(s, s.versions);
    forall id | Some(id) in s'.versionGuards ensures HasVersion(s'.versions, id) {
      var k :| 0 <= k < |s.versions| && s.versions[k].id == id;
      assert s.versions[k] in s'.versions;
    }
    forall k | 0 <= k < |s'.versions|
      ensures s'.versions[k].id < s.nextVersion && forall r | r in s'.versions[k].files :: r in s.reps
    {
      assert s'.versions[k] in s.versions;
      var i :| 0 <= i < |s.versions| && s.versions[i] == s'.versions[k];
    }
  }

  // Collecting files drops no rep that a guard points to, inside or outside a version.
  lemma CollectFilesKeeps(s: State)
    requires Inv(s)
    ensures Inv(CollectFiles(s))
    ensures forall r :: r in CollectFiles(s).reps <==> Referenced(s, r)
  {
    hide Ascending;
    var s' := CollectFiles(s);
    forall r | Referenced(s, r) ensures r in s.reps {}
    forall k, r | 0 <= k < |s.versions| && r in s.versions[k].files ensures r in s'.reps {
      assert InVersions(s.versions, r);
    }
    forall r | r in s'.reps ensures s'.reps[r] in s'.names && s'.names[s'.reps[r]] == r {}
  }

  // The versions that keep a guard, and the files that keep one once the others are gone.
  predicate StillHeld(s: State, r: Rep) {
    Some(r) in s.fileGuards || exists v :: v in s.versions && Guarded(s, v.id) && r in v.files
  }

  // A collection that nothing interrupts keeps exactly the guarded versions and the files still held
  // after the other versions are gone; a second one finds nothing to do.
  lemma DoGCExact(s: State)
    requires Inv(s)
    ensures var s' := DoGC(s);
            && Inv(s') && s'.current == s.current && s'.fileGuards == s.fileGuards
            && s'.versionGuards == s.versionGuards
            && (forall v :: v in s'.versions <==> v in s.versions && Guarded(s, v.id))
            && (forall r :: r in s'.reps <==> StillHeld(s, r))
            && (forall f :: f in s'.disk <==> f in s.disk && (f in s.names ==> StillHeld(s, s.names[f])))
    ensures DoGC(DoGC(s)) == DoGC(s)
  {
    hide RegistryOk, GuardsOk, ListsOk, Ascending, CurrentIsLast, OnlyGuarded, Guarded, Inv;
    var s1 := CollectVersions(s);
    CollectVersionsKeeps(s);
    CollectFilesKeeps(s1);
    forall r ensures Referenced(s1, r) <==> StillHeld(s, r) {
      HeldAfter(s, s1, r);
    }
    var s2 := DoGC(s);
    SameGuards(s, s2);
    AllGuardedStay(s2, s2.versions);
    assert CollectVersions(s2) == s2;
    forall r ensures Referenced(s2, r) <==> Referenced(s1, r) {}
    CollectTwice(s1);
  }

  lemma HeldAfter(s: State, s1: State, r: Rep)
    requires s1.fileGuards == s.fileGuards && forall v :: v in s1.versions <==> v in s.versions && Guarded(s, v.id)
    ensures Referenced(s1, r) <==> StillHeld(s, r)
  {
    hide Guarded;
    if InVersions(s1.versions, r) {
      var k :| 0 <= k < |s1.versions| && r in s1.versions[k].files;
      assert s1.versions[k] in s1.versions;
    }
    if v :| v in s.versions && Guarded(s, v.id) && r in v.files {
      assert v in s1.versions;
    }
  }

  lemma SameGuards(s: State, s': State)
    requires s.current == s'.current && s.versionGuards == s'.versionGuards
    ensures forall id :: Guarded(s, id) <==> Guarded(s', id)
  {}

  lemma {:induction false} AllGuardedStay(s: State, versions: seq<Version>)
    requires forall v | v in versions :: Guarded(s, v.id)
    ensures OnlyGuarded(s, versions) == versions
  {
    hide Guarded;
    if versions != [] {
      var front, last := versions[..|versions| - 1], versions[|versions| - 1];
      assert versions == front + [last];
      AllGuardedStay(s, front);
    }
  }

  lemma CollectTwice(s: State)
    requires Inv(s)
    ensures CollectFiles(CollectFiles(s)) == CollectFiles(s)
  {
    hide Ascending, ListsOk, GuardsOk;
    var s1 := CollectFiles(s);
    assert forall r :: Referenced(s1, r) <==> Referenced(s, r);
    assert CollectFiles(s1).disk == s1.disk;
  }

  // Collecting files before versions does the same only if no file hangs on unguarded versions alone.
  lemma OrderMatters(s: State)
    requires Inv(s)
    ensures CollectVersions(CollectFiles(s)) == DoGC(s) <==>
              forall r | r in s.reps && Referenced(s, r) :: StillHeld(s, r)
  {
    hide RegistryOk, GuardsOk, ListsOk, Ascending, CurrentIsLast, OnlyGuarded, Guarded, Inv;
    var swapped, s' := CollectVersions(CollectFiles(s)), DoGC(s);
    DoGCExact(s);
    CollectFilesKeeps(s);
    SameGuards(s, CollectFiles(s));
    SameOnly(s, CollectFiles(s), s.versions);
    if forall r | r in s.reps && Referenced(s, r) :: StillHeld(s, r) {
      forall r ensures r in swapped.reps <==> r in s'.reps {
        if StillHeld(s, r) { HeldIsReferenced(s, r); }
      }
      NamesFollow(s);
    } else {
      var r :| r in s.reps && Referenced(s, r) && !StillHeld(s, r);
      assert r in swapped.reps && r !in s'.reps;
    }
  }

  lemma HeldIsReferenced(s: State, r: Rep)
    requires StillHeld(s, r)
    ensures Referenced(s, r)
  {
    hide Guarded;
    if v :| v in s.versions && Guarded(s, v.id) && r in v.files {
      var k :| 0 <= k < |s.versions| && s.versions[k] == v;
    }
  }

  lemma {:induction false} SameOnly(s: State, s': State, versions: seq<Version>)
    requires forall id :: Guarded(s, id) <==> Guarded(s', id)
    ensures OnlyGuarded(s, versions) == OnlyGuarded(s', versions)
  {
    hide Guarded;
    if versions != [] {
      SameOnly(s, s', versions[..|versions| - 1]);
    }
  }

  lemma NamesFollow(s: State)
    requires Inv(s) && forall r | r in s.reps && Referenced(s, r) :: StillHeld(s, r)
    ensures var a, b := CollectFiles(s), DoGC(s); a.reps == b.reps && a.names == b.names && a.disk == b.disk
  {
    hide GuardsOk, ListsOk, Ascending, CurrentIsLast, OnlyGuarded, Guarded, Referenced;
    CollectVersionsKeeps(s);
    forall r | r in s.reps ensures Referenced(s, r) <==> Referenced(CollectVersions(s), r) {
      HeldAfter(s, CollectVersions(s), r);
      if StillHeld(s, r) { HeldIsReferenced(s, r); }
    }
  }

  /* -------------------------------------------------------------------- steps */

  lemma RegisterKeeps(s: State, file: File)
    requires Inv(s)
    ensures Inv(Register(s, file)) && file in Register(s, file).names
    ensures Register(s, file).names[file] in Register(s, file).reps
  {
    hide Ascending;
    if file !in s.names {
      assert s.nextRep !in s.reps;
    }
  }

  lemma NextVersionKeeps(s: State)
    requires Inv(s)
    ensures Inv(NextVersion(s))
  {
    hide RegistryOk;
    var s' := NextVersion(s);
    forall id | HasVersion(s.versions, id) ensures HasVersion(s'.versions, id) {
      var k :| 0 <= k < |s.versions| && s.versions[k].id == id;
      assert s'.versions[k].id == id;
    }
    assert s'.versions[|s.versions|].files == s.versions[|s.versions| - 1].files;
    assert RegistryOk(s') by { SameRegistry(s, s'); }
  }

  lemma SameRegistry(s: State, s': State)
    requires RegistryOk(s) && s'.reps == s.reps && s'.names == s.names && s'.disk == s.disk && s'.nextRep == s.nextRep
    ensures RegistryOk(s')
  {}

  lemma ApplyKeeps(s: State, id: VersionId, added: seq<Rep>, compacted: seq<Rep>)
    requires Inv(s) && (forall r | r in added :: r in s.reps) && (forall r | r in compacted :: r in s.reps)
    ensures Inv(Applied(s, id, added, compacted))
  {
    hide WithDelta;
    var s' := Applied(s, id, added, compacted);
    forall i | HasVersion(s.versions, i) ensures HasVersion(s'.versions, i) {
      var k :| 0 <= k < |s.versions| && s.versions[k].id == i;
      assert s'.versions[k].id == i;
    }
    forall k, r | 0 <= k < |s'.versions| && r in s'.versions[k].files ensures r in s.reps {
      if r !in s.versions[k].files { DeltaMembers(s.reps, s.versions[k].files, added, compacted, r); }
    }
  }

  lemma DeltaMembers(reps: map<Rep, File>, files: seq<Rep>, added: seq<Rep>, compacted: seq<Rep>, r: Rep)
    requires r in WithDelta(reps, files, added, compacted)
    ensures r in added || r in files
  {
    hide RepLess;
    if r !in added {
      DifferenceMembers(reps, Sorted(reps, files), Sorted(reps, compacted));
      SortedMembers(reps, files);
    }
  }

  lemma {:induction false} DifferenceMembers(reps: map<Rep, File>, a: seq<Rep>, b: seq<Rep>)
    ensures forall r | r in SetDifference(reps, a, b) :: r in a
    decreases |a| + |b|
  {
    hide RepLess;
    if a != [] && b != [] {
      DifferenceMembers(reps, a[1..], b);
      DifferenceMembers(reps, a, b[1..]);
      DifferenceMembers(reps, a[1..], b[1..]);
    }
  }

  lemma {:induction false} SortedMembers(reps: map<Rep, File>, rs: seq<Rep>)
    ensures multiset(Sorted(reps, rs)) == multiset(rs)
    ensures forall r :: r in Sorted(reps, rs) <==> r in rs
  {
    if rs != [] {
      var front, last := rs[..|rs| - 1], rs[|rs| - 1];
      assert rs == front + [last];
      SortedMembers(reps, front);
      InsertedMultiset(reps, Sorted(reps, front), last);
    }
    forall r ensures r in Sorted(reps, rs) <==> r in rs {
      assert r in multiset(Sorted(reps, rs)) <==> r in multiset(rs);
    }
  }

  // Copying, assigning, moving and dropping guards only ever copies or clears what a slot holds.
  lemma SlotsOnly<T>(slots: seq<Option<T>>, i: nat, j: nat)
    requires i < |slots| && j < |slots|
    ensures forall x | Some(x) in Assigned(slots, i, j) :: Some(x) in slots
    ensures forall x | Some(x) in Moved(slots, i, j) :: Some(x) in slots
    ensures forall x | Some(x) in slots[i := None] :: Some(x) in slots
    ensures forall x | Some(x) in slots + [slots[i]] :: Some(x) in slots
  {}

  lemma SameGuardTargets(s: State, s': State)
    requires Inv(s) && s' == s.(fileGuards := s'.fileGuards, versionGuards := s'.versionGuards)
    requires forall r | Some(r) in s'.fileGuards :: Some(r) in s.fileGuards || r in s.reps
    requires forall id | Some(id) in s'.versionGuards :: Some(id) in s.versionGuards || Some(id) == s.current
    ensures Inv(s')
  {
    forall id | Some(id) in s'.versionGuards ensures HasVersion(s'.versions, id) {
      if Some(id) == s.current { assert s.versions[|s.versions| - 1].id == id; }
    }
  }

  // Every step keeps the invariant.
  lemma StepKeeps(s: State, op: Op)
    requires Inv(s) && Enabled(s, op)
    ensures Inv(Step(s, op))
  {
    hide Inv, Register, NextVersion, Changed, CollectVersions, CollectFiles, Assigned, Moved;
    var s' := Step(s, op);
    match op {
      case Copy(i) => SlotsOnly(s.fileGuards, i, i); SameGuardTargets(s, s');
      case Assign(i, j) => SlotsOnly(s.fileGuards, i, j); SameGuardTargets(s, s');
      case Move(i, j) => SlotsOnly(s.fileGuards, i, j); SameGuardTargets(s, s');
      case Release(i) => SlotsOnly(s.fileGuards, i, i); SameGuardTargets(s, s');
      case CopyV(i) => SlotsOnly(s.versionGuards, i, i); SameGuardTargets(s, s');
      case AssignV(i, j) => SlotsOnly(s.versionGuards, i, j); SameGuardTargets(s, s');
      case MoveV(i, j) => SlotsOnly(s.versionGuards, i, j); SameGuardTargets(s, s');
      case ReleaseV(i) => SlotsOnly(s.versionGuards, i, i); SameGuardTargets(s, s');
      case GetFile(file) => RegisterKeeps(s, file); SameGuardTargets(Register(s, file), s');
      case AddVersion => NextVersionKeeps(s); SameGuardTargets(NextVersion(s), s');
      case Apply(i, added, compacted) =>
        PickedThere(s, added);
        PickedThere(s, compacted);
        ApplyKeeps(s, s.versionGuards[i].value, Picked(s.fileGuards, added), Picked(s.fileGuards, compacted));
      case VersionGC => CollectVersionsKeeps(s);
      case FileGC => CollectFilesKeeps(s);
      case _ => SameGuardTargets(s, s');
    }
  }

  lemma PickedThere(s: State, picks: seq<nat>)
    requires Inv(s) && AllSome(s.fileGuards, picks)
    ensures forall r | r in Picked(s.fileGuards, picks) :: r in s.reps
  {
    hide RegistryOk, ListsOk, Ascending;
    var rs := Picked(s.fileGuards, picks);
    forall r | r in rs ensures r in s.reps {
      var k :| 0 <= k < |rs| && rs[k] == r;
      assert picks[k] in picks;
      assert s.fileGuards[picks[k]] == Some(r);
    }
  }

  /* --------------------------------------------------------------------- runs */

  ghost predicate Run(states: seq<State>, ops: seq<Op>) {
    && |states| == |ops| + 1
    && forall i | 0 <= i < |ops| :: Enabled(states[i], ops[i]) && states[i + 1] == Step(states[i], ops[i])
  }

  // What a reader of the store relies on: no guard dangles, the current version is the newest one,
  // and every file of every version is registered and on disk.
  ghost predicate Safe(s: State) {
    && CurrentIsLast(s)
    && (forall r | Some(r) in s.fileGuards :: Usable(s, r))
    && (forall id | Some(id) in s.versionGuards :: HasVersion(s.versions, id))
    && (forall k, r | 0 <= k < |s.versions| && r in s.versions[k].files :: Usable(s, r))
  }

  predicate Usable(s: State, r: Rep) {
    r in s.reps && s.reps[r] in s.names && s.names[s.reps[r]] == r && s.reps[r] in s.disk
  }

  lemma {:induction false} RunSafe(states: seq<State>, ops: seq<Op>, n: nat)
    requires Run(states, ops) && Inv(states[0]) && n <= |ops|
    ensures Inv(states[n]) && Safe(states[n])
  {
    hide Inv, Step, Enabled;
    if n > 0 {
      RunSafe(states, ops, n - 1);
      StepKeeps(states[n - 1], ops[n - 1]);
    }
    InvSafe(states[n]);
  }

  lemma InvSafe(s: State)
    requires Inv(s)
    ensures Safe(s)
  {
    hide Ascending;
  }

  function FilesOf(versions: seq<Version>, id: VersionId): seq<Rep> {
    if versions == [] then []
    else if versions[0].id == id then versions[0].files
    else FilesOf(versions[1..], id)
  }

  // An operation that could change the files of this version.
  predicate Touches(s: State, op: Op, id: VersionId) {
    op.Apply? && op.i < |s.versionGuards| && s.versionGuards[op.i] == Some(id)
  }

  lemma {:induction false} FilesOfAt(versions: seq<Version>, k: nat)
    requires Ascending(versions) && k < |versions|
    ensures FilesOf(versions, versions[k].id) == versions[k].files
  {
    if k > 0 {
      assert versions[k] == versions[1..][k - 1];
      FilesOfAt(versions[1..], k - 1);
    }
  }

  lemma StepKeepsVersion(s: State, op: Op, id: VersionId)
    requires Inv(s) && Enabled(s, op) && HasVersion(s.versions, id) && !Touches(s, op, id)
    requires HasVersion(Step(s, op).versions, id)
    ensures FilesOf(Step(s, op).versions, id) == FilesOf(s.versions, id)
  {
    hide Register, WithDelta, RegistryOk, Assigned, Moved;
    var s' := Step(s, op);
    var k :| 0 <= k < |s.versions| && s.versions[k].id == id;
    FilesOfAt(s.versions, k);
    StepKeeps(s, op);
    var k' :| 0 <= k' < |s'.versions| && s'.versions[k'].id == id;
    FilesOfAt(s'.versions, k');
    SameVersionLater(s, op, k, k');
  }

  lemma SameVersionLater(s: State, op: Op, k: nat, k': nat)
    requires Inv(s) && Enabled(s, op) && k < |s.versions| && k' < |Step(s, op).versions|
    requires Step(s, op).versions[k'].id == s.versions[k].id && !Touches(s, op, s.versions[k].id)
    ensures Step(s, op).versions[k'] == s.versions[k]
  {
    hide WithDelta, RegistryOk, Assigned, Moved, GuardsOk, Guarded, OnlyGuarded, Referenced;
    if op.VersionGC? {
      OnlyGuardedMeans(s, s.versions);
      assert Step(s, op).versions[k'] in Step(s, op).versions;
      var i :| 0 <= i < |s.versions| && s.versions[i] == Step(s, op).versions[k'];
      assert i == k;
    } else {
      assert op.AddVersion? || op.Apply? || Step(s, op).versions == s.versions;
      assert k' == k;
    }
  }

  // A version that a guard holds through a run keeps its files, and they stay readable, whatever
  // else is compacted, installed or collected.
  lemma {:induction false} HeldVersionStays(states: seq<State>, ops: seq<Op>, id: VersionId, n: nat)
    requires Run(states, ops) && Inv(states[0]) && n <= |ops|
    requires forall i | 0 <= i <= |ops| :: Guarded(states[i], id)
    requires forall i | 0 <= i < |ops| :: !Touches(states[i], ops[i], id)
    ensures FilesOf(states[n].versions, id) == FilesOf(states[0].versions, id)
    ensures forall r | r in FilesOf(states[0].versions, id) :: Usable(states[n], r)
  {
    hide Inv, Step, Enabled, Touches, FilesOf, Usable, Guarded;
    RunSafe(states, ops, n);
    GuardedThere(states[n], id);
    if n > 0 {
      RunSafe(states, ops, n - 1);
      GuardedThere(states[n - 1], id);
      HeldVersionStays(states, ops, id, n - 1);
      StepKeepsVersion(states[n - 1], ops[n - 1], id);
    }
  }

  lemma GuardedThere(s: State, id: VersionId)
    requires Inv(s) && Guarded(s, id)
    ensures HasVersion(s.versions, id) && forall r | r in FilesOf(s.versions, id) :: Usable(s, r)
  {
    hide Usable;
    InvSafe(s);
    if s.current == Some(id) { assert s.versions[|s.versions| - 1].id == id; }
    var k :| 0 <= k < |s.versions| && s.versions[k].id == id;
    FilesOfAt(s.versions, k);
  }
}
