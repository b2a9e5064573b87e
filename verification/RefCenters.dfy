/** The reference counts themselves: every guard operation, version change and collection as the
    program does it, on counters, agrees with its meaning in terms of guards. */
module RefCenters {
  import opened Bytes
  import opened Guarding
  import opened GuardSafety

  /* ------------------------------------------------------- counts and slots */

  // Every count is the number of slots that hold the target, and what else holds it.
  predicate Counted<T(==)>(refs: map<T, nat>, slots: seq<Option<T>>, base: map<T, nat>) {
    refs.Keys == base.Keys && forall x | x in refs :: refs[x] == multiset(slots)[Some(x)] + base[x]
  }

  predicate InRange<T(==)>(slots: seq<Option<T>>, refs: map<T, nat>) {
    forall i | 0 <= i < |slots| && slots[i].Some? :: slots[i].value in refs
  }

  function Plus<T(==)>(refs: map<T, nat>, x: Option<T>): map<T, nat>
    requires x.Some? ==> x.value in refs
  {
    if x.Some? then refs[x.value := refs[x.value] + 1] else refs
  }

  lemma SlotSet<T>(slots: seq<Option<T>>, i: nat, x: Option<T>)
    requires i < |slots|
    ensures multiset(slots[i := x]) == multiset(slots) - multiset{slots[i]} + multiset{x}
    ensures slots[i] in multiset(slots)
  {
    assert slots[i] in slots;
  }

  lemma SlotCleared<T>(refs: map<T, nat>, slots: seq<Option<T>>, base: map<T, nat>, i: nat)
    requires Counted(refs, slots, base) && i < |slots| && slots[i].Some? && slots[i].value in refs
    ensures refs[slots[i].value] > 0
    ensures Counted(refs[slots[i].value := refs[slots[i].value] - 1], slots[i := None], base)
  {
    SlotSet(slots, i, None);
  }

  lemma SlotFilled<T>(refs: map<T, nat>, slots: seq<Option<T>>, base: map<T, nat>, i: nat, x: Option<T>)
    requires Counted(refs, slots, base) && i < |slots| && slots[i].None? && (x.Some? ==> x.value in refs)
    ensures Counted(Plus(refs, x), slots[i := x], base)
  {
    SlotSet(slots, i, x);
  }

  lemma SlotAdded<T>(refs: map<T, nat>, slots: seq<Option<T>>, base: map<T, nat>, x: Option<T>)
    requires Counted(refs, slots, base) && (x.Some? ==> x.value in refs)
    ensures Counted(Plus(refs, x), slots + [x], base)
  {}

  // Exchanging two slots moves a guard without a count changing.
  lemma SlotsSwapped<T>(refs: map<T, nat>, slots: seq<Option<T>>, base: map<T, nat>, i: nat, j: nat)
    requires Counted(refs, slots, base) && i < |slots| && j < |slots| && slots[i].None?
    ensures Counted(refs, slots[i := slots[j]][j := None], base)
  {
    SlotSet(slots, i, slots[j]);
    SlotSet(slots[i := slots[j]], j, None);
  }

  /* ---------------------------------------------------- holders in versions */

  // How often the files of these versions name a rep.
  function InLists(versions: seq<Version>, r: Rep): nat {
    if versions == [] then 0
    else InLists(versions[..|versions| - 1], r) + multiset(versions[|versions| - 1].files)[r]
  }

  lemma {:induction false} InListsZero(versions: seq<Version>, r: Rep)
    ensures InLists(versions, r) == 0 <==> !InVersions(versions, r)
  {
    if versions != [] {
      var front, last := versions[..|versions| - 1], versions[|versions| - 1];
      InListsZero(front, r);
      if InVersions(front, r) {
        var k :| 0 <= k < |front| && r in front[k].files;
        assert r in versions[k].files;
      } else if r in last.files {
        assert r in multiset(last.files);
      }
    }
  }

  lemma InListsAppend(versions: seq<Version>, v: Version, r: Rep)
    ensures InLists(versions + [v], r) == InLists(versions, r) + multiset(v.files)[r]
  {
    assert (versions + [v])[..|versions|] == versions;
  }

  lemma {:induction false} InListsSplit(versions: seq<Version>, k: nat, r: Rep)
    requires k < |versions|
    ensures InLists(versions, r) ==
              InLists(versions[..k], r) + multiset(versions[k].files)[r] + InLists(versions[k + 1..], r)
  {
    if k == |versions| - 1 {
      assert versions[k + 1..] == [];
    } else {
      var front, last := versions[..|versions| - 1], versions[|versions| - 1];
      InListsSplit(front, k, r);
      assert front[..k] == versions[..k];
      assert versions[k + 1..] == front[k + 1..] + [last];
      InListsAppend(front[k + 1..], last, r);
    }
  }

  function HeldByLists(reps: map<Rep, File>, versions: seq<Version>): map<Rep, nat> {
    map r | r in reps :: InLists(versions, r)
  }

  function FileBase(s: State): map<Rep, nat> {
    HeldByLists(s.reps, s.versions)
  }

  function Ids(versions: seq<Version>): set<VersionId> {
    set k | 0 <= k < |versions| :: versions[k].id
  }

  function VersionBase(s: State): map<VersionId, nat> {
    map id | id in Ids(s.versions) :: if s.current == Some(id) then 1 else 0
  }

  predicate FilesCounted(refs: map<Rep, nat>, s: State) {
    Counted<Rep>(refs, s.fileGuards, FileBase(s))
  }

  predicate VersionsCounted(refs: map<VersionId, nat>, s: State) {
    Counted<VersionId>(refs, s.versionGuards, VersionBase(s))
  }

  // A count is zero exactly when no guard points to the rep, outside or inside a version.
  lemma FileCountZero(refs: map<Rep, nat>, s: State, r: Rep)
    requires FilesCounted(refs, s) && r in refs
    ensures refs[r] == 0 <==> !Referenced(s, r)
  {
    InListsZero(s.versions, r);
    assert Some(r) in s.fileGuards <==> Some(r) in multiset(s.fileGuards);
  }

  lemma VersionCountZero(refs: map<VersionId, nat>, s: State, id: VersionId)
    requires VersionsCounted(refs, s) && id in refs
    ensures refs[id] == 0 <==> !Guarded(s, id)
  {
    assert Some(id) in s.versionGuards <==> Some(id) in multiset(s.versionGuards);
  }

  lemma SlotTargets(s: State, refs: map<Rep, nat>, versionRefs: map<VersionId, nat>)
    requires Inv(s) && FilesCounted(refs, s) && VersionsCounted(versionRefs, s)
    ensures InRange(s.fileGuards, refs) && InRange(s.versionGuards, versionRefs)
    ensures s.current.Some? && s.current.value in versionRefs
  {
    hide RegistryOk, Ascending;
    forall i | 0 <= i < |s.fileGuards| && s.fileGuards[i].Some? ensures s.fileGuards[i].value in refs {
      assert Some(s.fileGuards[i].value) in s.fileGuards;
    }
    forall i | 0 <= i < |s.versionGuards| && s.versionGuards[i].Some? ensures s.versionGuards[i].value in versionRefs {
      assert Some(s.versionGuards[i].value) in s.versionGuards;
    }
    assert s.versions[|s.versions| - 1].id in Ids(s.versions);
  }

  // Guards changed and were counted anew; what versions hold did not change.
  lemma Recounted(s: State, s': State, refs: map<Rep, nat>, versionRefs: map<VersionId, nat>)
    requires Inv(s) && s' == s.(fileGuards := s'.fileGuards, versionGuards := s'.versionGuards)
    requires forall r | Some(r) in s'.fileGuards :: Some(r) in s.fileGuards || r in s.reps
    requires forall id | Some(id) in s'.versionGuards :: Some(id) in s.versionGuards || Some(id) == s.current
    requires Counted(refs, s'.fileGuards, FileBase(s)) && Counted(versionRefs, s'.versionGuards, VersionBase(s))
    ensures Inv(s') && FilesCounted(refs, s') && VersionsCounted(versionRefs, s')
  {
    hide Inv;
    SameGuardTargets(s, s');
    assert FileBase(s') == FileBase(s) && VersionBase(s') == VersionBase(s);
  }

  // Every count is the number of guards, and no guard dangles.
  ghost predicate Good(s: State, refs: map<Rep, nat>, vrefs: map<VersionId, nat>) {
    Inv(s) && FilesCounted(refs, s) && VersionsCounted(vrefs, s)
  }

  lemma GoodTargets(s: State, refs: map<Rep, nat>, vrefs: map<VersionId, nat>)
    requires Good(s, refs, vrefs)
    ensures InRange(s.fileGuards, refs) && InRange(s.versionGuards, vrefs)
    ensures s.current.Some? && s.current.value in vrefs
  {
    SlotTargets(s, refs, vrefs);
  }

  lemma CountedKeys<T>(refs: map<T, nat>, slots: seq<Option<T>>, base: map<T, nat>)
    requires Counted(refs, slots, base)
    ensures refs.Keys == base.Keys
  {}

  lemma FileCleared(s: State, refs: map<Rep, nat>, vrefs: map<VersionId, nat>, i: nat)
    requires Good(s, refs, vrefs) && i < |s.fileGuards| && s.fileGuards[i].Some?
    ensures var x := s.fileGuards[i].value;
            x in refs && refs[x] > 0 && Good(s.(fileGuards := s.fileGuards[i := None]), refs[x := refs[x] - 1], vrefs)
  {
    hide Inv, Counted, FileBase, VersionBase;
    var s', x := s.(fileGuards := s.fileGuards[i := None]), s.fileGuards[i].value;
    SlotsOnly(s.fileGuards, i, i);
    SlotTargets(s, refs, vrefs);
    SlotCleared(refs, s.fileGuards, FileBase(s), i);
    Recounted(s, s', refs[x := refs[x] - 1], vrefs);
  }

  lemma FileFilled(s: State, refs: map<Rep, nat>, vrefs: map<VersionId, nat>, i: nat, j: nat)
    requires Good(s, refs, vrefs) && i < |s.fileGuards| && j < |s.fileGuards| && s.fileGuards[i].None?
    ensures var x := s.fileGuards[j];
            (x.Some? ==> x.value in refs) && Good(s.(fileGuards := s.fileGuards[i := x]), Plus(refs, x), vrefs)
  {
    hide Inv, Counted, FileBase, VersionBase;
    var s', x := s.(fileGuards := s.fileGuards[i := s.fileGuards[j]]), s.fileGuards[j];
    SlotsOnly(s.fileGuards, i, j);
    SlotTargets(s, refs, vrefs);
    SlotFilled(refs, s.fileGuards, FileBase(s), i, x);
    Recounted(s, s', Plus(refs, x), vrefs);
  }

  lemma FileSwapped(s: State, refs: map<Rep, nat>, vrefs: map<VersionId, nat>, i: nat, j: nat)
    requires Good(s, refs, vrefs) && i < |s.fileGuards| && j < |s.fileGuards| && s.fileGuards[i].None?
    ensures Good(s.(fileGuards := s.fileGuards[i := s.fileGuards[j]][j := None]), refs, vrefs)
  {
    hide Inv, Counted, FileBase, VersionBase;
    var s' := s.(fileGuards := s.fileGuards[i := s.fileGuards[j]][j := None]);
    SlotsOnly(s.fileGuards, i, j);
    SlotsSwapped(refs, s.fileGuards, FileBase(s), i, j);
    Recounted(s, s', refs, vrefs);
  }

  lemma FileAdded(s: State, refs: map<Rep, nat>, vrefs: map<VersionId, nat>, x: Option<Rep>)
    requires Good(s, refs, vrefs) && (x.Some? ==> x.value in refs)
    ensures Good(s.(fileGuards := s.fileGuards + [x]), Plus(refs, x), vrefs)
  {
    hide Inv, Counted, VersionBase;
    var s' := s.(fileGuards := s.fileGuards + [x]);
    assert refs.Keys == s.reps.Keys by { CountedKeys(refs, s.fileGuards, FileBase(s)); }
    SlotTargets(s, refs, vrefs);
    SlotAdded(refs, s.fileGuards, FileBase(s), x);
    Recounted(s, s', Plus(refs, x), vrefs);
  }

  lemma VersionCleared(s: State, refs: map<Rep, nat>, vrefs: map<VersionId, nat>, i: nat)
    requires Good(s, refs, vrefs) && i < |s.versionGuards| && s.versionGuards[i].Some?
    ensures var x := s.versionGuards[i].value;
            && x in vrefs && vrefs[x] > 0
            && Good(s.(versionGuards := s.versionGuards[i := None]), refs, vrefs[x := vrefs[x] - 1])
  {
    hide Inv, Counted, FileBase, VersionBase;
    var s', x := s.(versionGuards := s.versionGuards[i := None]), s.versionGuards[i].value;
    SlotsOnly(s.versionGuards, i, i);
    SlotTargets(s, refs, vrefs);
    SlotCleared(vrefs, s.versionGuards, VersionBase(s), i);
    Recounted(s, s', refs, vrefs[x := vrefs[x] - 1]);
  }

  lemma VersionFilled(s: State, refs: map<Rep, nat>, vrefs: map<VersionId, nat>, i: nat, j: nat)
    requires Good(s, refs, vrefs) && i < |s.versionGuards| && j < |s.versionGuards| && s.versionGuards[i].None?
    ensures var x := s.versionGuards[j];
            (x.Some? ==> x.value in vrefs) && Good(s.(versionGuards := s.versionGuards[i := x]), refs, Plus(vrefs, x))
  {
    hide Inv, Counted, FileBase, VersionBase;
    var s', x := s.(versionGuards := s.versionGuards[i := s.versionGuards[j]]), s.versionGuards[j];
    SlotsOnly(s.versionGuards, i, j);
    SlotTargets(s, refs, vrefs);
    SlotFilled(vrefs, s.versionGuards, VersionBase(s), i, x);
    Recounted(s, s', refs, Plus(vrefs, x));
  }

  lemma VersionSwapped(s: State, refs: map<Rep, nat>, vrefs: map<VersionId, nat>, i: nat, j: nat)
    requires Good(s, refs, vrefs) && i < |s.versionGuards| && j < |s.versionGuards| && s.versionGuards[i].None?
    ensures Good(s.(versionGuards := s.versionGuards[i := s.versionGuards[j]][j := None]), refs, vrefs)
  {
    hide Inv, Counted, FileBase, VersionBase;
    var s' := s.(versionGuards := s.versionGuards[i := s.versionGuards[j]][j := None]);
    SlotsOnly(s.versionGuards, i, j);
    SlotsSwapped(vrefs, s.versionGuards, VersionBase(s), i, j);
    Recounted(s, s', refs, vrefs);
  }

  lemma VersionAdded(s: State, refs: map<Rep, nat>, vrefs: map<VersionId, nat>, x: Option<VersionId>)
    requires Good(s, refs, vrefs) && (x.Some? ==> x.value in vrefs)
    requires (x in s.versionGuards || x.None? || x == s.current)
    ensures Good(s.(versionGuards := s.versionGuards + [x]), refs, Plus(vrefs, x))
  {
    hide Inv, Counted, FileBase, VersionBase;
    var s' := s.(versionGuards := s.versionGuards + [x]);
    SlotTargets(s, refs, vrefs);
    SlotAdded(vrefs, s.versionGuards, VersionBase(s), x);
    Recounted(s, s', refs, Plus(vrefs, x));
  }

  /* ----------------------------------------------------- counts and versions */

  function RefsAll(refs: map<Rep, nat>, rs: seq<Rep>): map<Rep, nat> {
    map r | r in refs :: refs[r] + multiset(rs)[r]
  }

  function DerefsAll(refs: map<Rep, nat>, rs: seq<Rep>): map<Rep, nat> {
    map r | r in refs :: if multiset(rs)[r] <= refs[r] then refs[r] - multiset(rs)[r] else 0
  }

  predicate Holding(refs: map<Rep, nat>, rs: seq<Rep>) {
    forall r | r in rs :: r in refs && multiset(rs)[r] <= refs[r]
  }

  lemma NextTaken(rs: seq<Rep>, k: nat)
    requires k < |rs|
    ensures multiset(rs[..k + 1]) == multiset(rs[..k]) + multiset{rs[k]}
    ensures multiset(rs[..k])[rs[k]] < multiset(rs)[rs[k]]
  {
    assert rs[..k + 1] == rs[..k] + [rs[k]];
    assert rs == rs[..k] + [rs[k]] + rs[k + 1..];
  }

  lemma RefsNext(refs: map<Rep, nat>, rs: seq<Rep>, k: nat)
    requires k < |rs| && rs[k] in refs
    ensures var d := RefsAll(refs, rs[..k]); rs[k] in d && RefsAll(refs, rs[..k + 1]) == d[rs[k] := d[rs[k]] + 1]
  {
    NextTaken(rs, k);
  }

  lemma DerefsNext(refs: map<Rep, nat>, rs: seq<Rep>, k: nat)
    requires Holding(refs, rs) && k < |rs|
    ensures var d := DerefsAll(refs, rs[..k]);
            rs[k] in d && d[rs[k]] > 0 && DerefsAll(refs, rs[..k + 1]) == d[rs[k] := d[rs[k]] - 1]
  {
    NextTaken(rs, k);
    var now, next := multiset(rs[..k]), multiset(rs[..k + 1]);
    assert multiset(rs)[rs[k]] <= refs[rs[k]];
    forall r ensures next[r] == now[r] + (if r == rs[k] then 1 else 0) {}
  }

  lemma NothingTaken(refs: map<Rep, nat>)
    ensures RefsAll(refs, []) == refs && DerefsAll(refs, []) == refs
  {}

  lemma RegisterGood(s: State, refs: map<Rep, nat>, vrefs: map<VersionId, nat>, file: File)
    requires Good(s, refs, vrefs)
    ensures var s' := Register(s, file);
            && Good(s', if file in s.names then refs else refs[s.nextRep := 0], vrefs) && file in s'.names
            && s'.names[file] in s'.reps
  {
    hide Inv, Counted, InLists;
    RegisterKeeps(s, file);
    if file !in s.names {
      var s' := Register(s, file);
      NobodyHolds(s, s.nextRep);
      assert FileBase(s') == FileBase(s)[s.nextRep := 0];
      NewCount(refs, s.fileGuards, FileBase(s), s.nextRep);
      assert VersionBase(s') == VersionBase(s);
    }
  }

  lemma RegisterIs(s: State, file: File)
    ensures file in s.names ==> Register(s, file) == s
    ensures var more := s.(reps := s.reps[s.nextRep := file], names := s.names[file := s.nextRep],
                           disk := s.disk + {file}, nextRep := s.nextRep + 1);
            file !in s.names ==> Register(s, file) == more
  {}

  lemma NobodyHolds(s: State, r: Rep)
    requires Inv(s) && s.nextRep <= r
    ensures InLists(s.versions, r) == 0 && Some(r) !in s.fileGuards
  {
    hide Ascending, HasVersion;
    assert r !in s.reps;
    InListsZero(s.versions, r);
  }

  lemma NewCount<T>(refs: map<T, nat>, slots: seq<Option<T>>, base: map<T, nat>, x: T)
    requires Counted(refs, slots, base) && Some(x) !in slots
    ensures Counted(refs[x := 0], slots, base[x := 0])
  {
    assert Some(x) !in multiset(slots);
  }

  lemma GoodKeys(s: State, refs: map<Rep, nat>, vrefs: map<VersionId, nat>)
    requires Good(s, refs, vrefs)
    ensures refs.Keys == s.reps.Keys && vrefs.Keys == Ids(s.versions)
  {}

  // A new version's copies of the file guards, and the current guard moving on to it.
  lemma NextVersionGood(s: State, refs: map<Rep, nat>, vrefs: map<VersionId, nat>)
    requires Good(s, refs, vrefs) && s.versions != []
    ensures s.current.Some? && s.current.value in vrefs && vrefs[s.current.value] > 0
    ensures s.current.value != s.nextVersion
    ensures forall r | r in s.versions[|s.versions| - 1].files :: r in refs
    ensures Good(NextVersion(s), RefsAll(refs, s.versions[|s.versions| - 1].files),
                 vrefs[s.nextVersion := 1][s.current.value := vrefs[s.current.value] - 1])
  {
    hide Inv, Counted, FileBase, VersionBase, Ids;
    var last := s.versions[|s.versions| - 1];
    NextVersionKeeps(s);
    GoodKeys(s, refs, vrefs);
    LastVersion(s);
    BaseNext(s);
    CountedMore(refs, s.fileGuards, FileBase(s), FileBase(NextVersion(s)), last.files);
    CurrentMoves(vrefs, s.versionGuards, VersionBase(s), VersionBase(NextVersion(s)), last.id, s.nextVersion);
  }

  lemma NextVersionIs(s: State)
    requires s.versions != []
    ensures NextVersion(s) == s.(versions := s.versions + [Version(s.nextVersion, s.versions[|s.versions| - 1].files)],
                                 current := Some(s.nextVersion), nextVersion := s.nextVersion + 1)
  {}

  // One guard more of the new version, one fewer of the one that was current.
  lemma CurrentMoved(vrefs: map<VersionId, nat>, id: VersionId, was: VersionId)
    requires was in vrefs && vrefs[was] > 0 && was != id
    ensures var one := vrefs[id := 0][id := 1]; one[was := one[was] - 1] == vrefs[id := 1][was := vrefs[was] - 1]
  {}

  lemma BaseNext(s: State)
    requires s.versions != [] && s.current == Some(s.versions[|s.versions| - 1].id) && s.current.value < s.nextVersion
    ensures var s', last := NextVersion(s), s.versions[|s.versions| - 1];
            && FileBase(s').Keys == FileBase(s).Keys
            && (forall r | r in FileBase(s) :: FileBase(s')[r] == FileBase(s)[r] + multiset(last.files)[r])
            && last.id in VersionBase(s) && VersionBase(s)[last.id] == 1
            && VersionBase(s).Keys == Ids(s.versions)
            && (s.nextVersion !in Ids(s.versions) ==>
                  VersionBase(s') == VersionBase(s)[last.id := 0][s.nextVersion := 1])
  {
    hide Ids, InLists;
    var s', last := NextVersion(s), s.versions[|s.versions| - 1];
    forall r ensures InLists(s'.versions, r) == InLists(s.versions, r) + multiset(last.files)[r] {
      InListsAppend(s.versions, Version(s.nextVersion, last.files), r);
    }
    NewIds(s);
    LastId(s.versions);
  }

  lemma LastId(versions: seq<Version>)
    requires versions != []
    ensures versions[|versions| - 1].id in Ids(versions)
  {}

  lemma LastVersion(s: State)
    requires Inv(s) && s.versions != []
    ensures var last := s.versions[|s.versions| - 1];
            && s.current == Some(last.id) && last.id in Ids(s.versions) && last.id < s.nextVersion
            && forall r | r in last.files :: r in s.reps
    ensures s.nextVersion !in Ids(s.versions) && Some(s.nextVersion) !in s.versionGuards
  {
    hide RegistryOk, Ascending;
    forall id | Some(id) in s.versionGuards ensures id < s.nextVersion {
      var k :| 0 <= k < |s.versions| && s.versions[k].id == id;
    }
  }

  lemma CountedMore(refs: map<Rep, nat>, slots: seq<Option<Rep>>, base: map<Rep, nat>, base': map<Rep, nat>,
                    rs: seq<Rep>)
    requires Counted(refs, slots, base) && base'.Keys == base.Keys
    requires forall r | r in base :: base'[r] == base[r] + multiset(rs)[r]
    ensures Counted(RefsAll(refs, rs), slots, base')
  {}

  lemma CurrentMoves(vrefs: map<VersionId, nat>, slots: seq<Option<VersionId>>, base: map<VersionId, nat>,
                     base': map<VersionId, nat>, was: VersionId, now: VersionId)
    requires Counted(vrefs, slots, base) && was in base && base[was] == 1 && now !in base && Some(now) !in slots
    requires base' == base[was := 0][now := 1]
    ensures was in vrefs && vrefs[was] > 0 && Counted<VersionId>(vrefs[now := 1][was := vrefs[was] - 1], slots, base')
  {
    assert Some(now) !in multiset(slots);
  }

  lemma NewIds(s: State)
    requires s.versions != []
    ensures Ids(NextVersion(s).versions) == Ids(s.versions) + {s.nextVersion}
  {
    var vs, vs' := s.versions, NextVersion(s).versions;
    forall id ensures id in Ids(vs') <==> id in Ids(vs) || id == s.nextVersion {
      if id in Ids(vs) {
        var k :| 0 <= k < |vs| && vs[k].id == id;
        assert vs'[k].id == id;
      }
      assert vs'[|vs|].id == s.nextVersion;
    }
  }

  lemma PickedCounted(s: State, refs: map<Rep, nat>, vrefs: map<VersionId, nat>, picks: seq<nat>)
    requires Good(s, refs, vrefs) && AllSome(s.fileGuards, picks)
    ensures forall r | r in Picked(s.fileGuards, picks) :: r in refs && r in s.reps
  {
    hide Inv;
    PickedThere(s, picks);
  }

  lemma GuardedVersion(s: State, refs: map<Rep, nat>, vrefs: map<VersionId, nat>, i: nat)
    requires Good(s, refs, vrefs) && i < |s.versionGuards| && s.versionGuards[i].Some?
    ensures exists k :: 0 <= k < |s.versions| && s.versions[k].id == s.versionGuards[i].value
  {
    hide RegistryOk, ListsOk, Ascending, FilesCounted, VersionsCounted;
    assert Some(s.versionGuards[i].value) in s.versionGuards;
    assert HasVersion(s.versions, s.versionGuards[i].value);
  }

  // One version's list exchanged: the counts follow.
  lemma AppliedGood(s: State, refs: map<Rep, nat>, vrefs: map<VersionId, nat>, k: nat, added: seq<Rep>,
                    compacted: seq<Rep>)
    requires Good(s, refs, vrefs) && k < |s.versions|
    requires (forall r | r in added :: r in s.reps) && (forall r | r in compacted :: r in s.reps)
    ensures var v, s' := s.versions[k], Applied(s, s.versions[k].id, added, compacted);
            var files := WithDelta(s.reps, v.files, added, compacted);
            && s' == s.(versions := s.versions[k := Version(v.id, files)])
            && Holding(refs, v.files) && (forall r | r in files :: r in refs)
            && Good(s', DerefsAll(RefsAll(refs, files), v.files), vrefs)
  {
    hide Inv, Counted, InLists, WithDelta, FileBase, VersionBase;
    var v, s' := s.versions[k], Applied(s, s.versions[k].id, added, compacted);
    var files := WithDelta(s.reps, v.files, added, compacted);
    OneChanged(s, k, added, compacted);
    ApplyKeeps(s, v.id, added, compacted);
    GoodKeys(s, refs, vrefs);
    NewListThere(s, k);
    NewListThere(s', k);
    SameIds(s, s', k);
    ListExchanged(s, s', refs, k);
  }

  lemma OneChanged(s: State, k: nat, added: seq<Rep>, compacted: seq<Rep>)
    requires Inv(s) && k < |s.versions|
    ensures var v := s.versions[k];
            Changed(s.versions, v.id, s.reps, added, compacted) ==
                s.versions[k := Version(v.id, WithDelta(s.reps, v.files, added, compacted))]
  {
    hide WithDelta, RegistryOk, GuardsOk;
  }

  lemma NewListThere(s: State, k: nat)
    requires Inv(s) && k < |s.versions|
    ensures forall r | r in s.versions[k].files :: r in s.reps
  {}

  lemma SameIds(s: State, s': State, k: nat)
    requires k < |s.versions| && s'.current == s.current && |s'.versions| == |s.versions|
    requires s'.versions == s.versions[k := s'.versions[k]] && s'.versions[k].id == s.versions[k].id
    ensures VersionBase(s') == VersionBase(s)
  {
    forall id ensures id in Ids(s'.versions) <==> id in Ids(s.versions) {
      if id in Ids(s.versions) {
        var j :| 0 <= j < |s.versions| && s.versions[j].id == id;
        assert s'.versions[j].id == id;
      }
    }
  }

  lemma ListExchanged(s: State, s': State, refs: map<Rep, nat>, k: nat)
    requires FilesCounted(refs, s) && k < |s.versions| && |s'.versions| == |s.versions| && s'.reps == s.reps
    requires s'.fileGuards == s.fileGuards
    requires s'.versions == s.versions[k := s'.versions[k]]
    requires forall r | r in s.versions[k].files :: r in s.reps
    ensures Holding(refs, s.versions[k].files)
    ensures FilesCounted(DerefsAll(RefsAll(refs, s'.versions[k].files), s.versions[k].files), s')
  {
    forall r
      ensures InLists(s'.versions, r) + multiset(s.versions[k].files)[r] ==
              InLists(s.versions, r) + multiset(s'.versions[k].files)[r]
      ensures multiset(s.versions[k].files)[r] <= InLists(s.versions, r)
    {
      InListsSplit(s.versions, k, r);
      InListsSplit(s'.versions, k, r);
      assert s'.versions[..k] == s.versions[..k] && s'.versions[k + 1..] == s.versions[k + 1..];
    }
  }

  // The counts after taking these guards and dropping those.
  function Adjusted(refs: map<Rep, nat>, plus: multiset<Rep>, minus: multiset<Rep>): map<Rep, nat>
    requires Enough(refs, plus, minus)
  {
    map r | r in refs :: refs[r] + plus[r] - minus[r]
  }

  predicate Enough(refs: map<Rep, nat>, plus: multiset<Rep>, minus: multiset<Rep>) {
    forall r | r in refs :: minus[r] <= refs[r] + plus[r]
  }

  lemma MoreTaken(refs: map<Rep, nat>, plus: multiset<Rep>, minus: multiset<Rep>, rs: seq<Rep>)
    requires Enough(refs, plus, minus)
    ensures Enough(refs, plus + multiset(rs), minus)
    ensures RefsAll(Adjusted(refs, plus, minus), rs) == Adjusted(refs, plus + multiset(rs), minus)
  {}

  lemma MoreDropped(refs: map<Rep, nat>, plus: multiset<Rep>, minus: multiset<Rep>, rs: seq<Rep>)
    requires Enough(refs, plus, minus) && Enough(refs, plus, minus + multiset(rs)) && forall r | r in rs :: r in refs
    ensures Holding(Adjusted(refs, plus, minus), rs)
    ensures DerefsAll(Adjusted(refs, plus, minus), rs) == Adjusted(refs, plus, minus + multiset(rs))
  {
    var m, d := minus + multiset(rs), Adjusted(refs, plus, minus);
    forall r | r in refs ensures multiset(rs)[r] <= d[r] {
      assert m[r] <= refs[r] + plus[r];
    }
  }

  lemma NothingAdjusted(refs: map<Rep, nat>)
    ensures Enough(refs, multiset{}, multiset{}) && Adjusted(refs, multiset{}, multiset{}) == refs
  {}

  lemma SameNet(refs: map<Rep, nat>, a: multiset<Rep>, f: multiset<Rep>, c: multiset<Rep>, d: multiset<Rep>)
    requires Enough(refs, multiset{}, f)
    ensures var up := multiset{} + a + f + c + d;
            && Enough(refs, up, multiset{} + f) && Enough(refs, up, multiset{} + f + c)
            && Enough(refs, up, multiset{} + f + c + f)
            && Enough(refs, multiset{} + (a + d), multiset{} + f)
            && Adjusted(refs, up, multiset{} + f + c + f) == Adjusted(refs, multiset{} + (a + d), multiset{} + f)
  {
    forall r | r in refs ensures f[r] <= refs[r] {
      assert f[r] <= refs[r] + multiset{}[r];
    }
  }

  lemma HoldingEnough(refs: map<Rep, nat>, rs: seq<Rep>)
    requires Holding(refs, rs)
    ensures Enough(refs, multiset{}, multiset(rs)) && forall r | r in rs :: r in refs
  {
    forall r | r !in rs ensures multiset(rs)[r] == 0 {}
  }

  // Copies of the added, old and compacted guards come and go; what is left is the new list for the old.
  lemma NetCounts(refs: map<Rep, nat>, added: seq<Rep>, files: seq<Rep>, compacted: seq<Rep>, stay: seq<Rep>)
    requires Holding(refs, files) && (forall r | r in compacted :: r in refs)
    ensures var up := RefsAll(RefsAll(RefsAll(RefsAll(refs, added), files), compacted), stay);
            && Holding(up, files) && Holding(DerefsAll(up, files), compacted)
            && Holding(DerefsAll(DerefsAll(up, files), compacted), files)
            && DerefsAll(DerefsAll(DerefsAll(up, files), compacted), files) ==
                 DerefsAll(RefsAll(refs, added + stay), files)
  {
    hide *;
    var a, f, c, d, e := multiset(added), multiset(files), multiset(compacted), multiset(stay), multiset{};
    HoldingEnough(refs, files);
    NothingAdjusted(refs);
    SameNet(refs, a, f, c, d);
    MoreTaken(refs, e, e, added);
    MoreTaken(refs, e + a, e, files);
    MoreTaken(refs, e + a + f, e, compacted);
    MoreTaken(refs, e + a + f + c, e, stay);
    var up := e + a + f + c + d;
    MoreDropped(refs, up, e, files);
    MoreDropped(refs, up, e + f, compacted);
    MoreDropped(refs, up, e + f + c, files);
    assert multiset(added + stay) == a + d;
    MoreTaken(refs, e, e, added + stay);
    MoreDropped(refs, e + (a + d), e, files);
  }

  /* ------------------------------------------------------ counts and collections */

  lemma IdThere(s: State, refs: map<Rep, nat>, vrefs: map<VersionId, nat>, k: nat)
    requires Good(s, refs, vrefs) && k < |s.versions|
    ensures s.versions[k].id in vrefs && (vrefs[s.versions[k].id] == 0 <==> !Guarded(s, s.versions[k].id))
    ensures forall r | r in s.versions[k].files :: r in s.reps
  {
    hide Inv, FilesCounted;
    NewListThere(s, k);
    assert s.versions[k].id in Ids(s.versions);
    VersionCountZero(vrefs, s, s.versions[k].id);
  }

  // Destroying one version drops its file guards.
  lemma VersionDropped(refs: map<Rep, nat>, slots: seq<Option<Rep>>, reps: map<Rep, File>, kept: seq<Version>,
                       v: Version, rest: seq<Version>)
    requires Counted<Rep>(refs, slots, HeldByLists(reps, kept + [v] + rest)) && forall r | r in v.files :: r in reps
    ensures Holding(refs, v.files) && Counted<Rep>(DerefsAll(refs, v.files), slots, HeldByLists(reps, kept + rest))
  {
    hide InLists;
    var all := kept + [v] + rest;
    forall r ensures InLists(all, r) == InLists(kept + rest, r) + multiset(v.files)[r] {
      InListsSplit(all, |kept|, r);
      assert all[..|kept|] == kept && all[|kept| + 1..] == rest;
      InListsConcat(kept, rest, r);
    }
  }

  lemma {:induction false} InListsConcat(a: seq<Version>, b: seq<Version>, r: Rep)
    ensures InLists(a + b, r) == InLists(a, r) + InLists(b, r)
  {
    if b == [] {
      assert a + b == a;
    } else {
      var front, last := b[..|b| - 1], b[|b| - 1];
      InListsConcat(a, front, r);
      assert a + b == (a + front) + [last];
      InListsAppend(a + front, last, r);
    }
  }

  lemma OnlyGuardedNext(s: State, versions: seq<Version>, k: nat)
    requires k < |versions|
    ensures OnlyGuarded(s, versions[..k + 1]) ==
              OnlyGuarded(s, versions[..k]) + (if Guarded(s, versions[k].id) then [versions[k]] else [])
  {
    assert versions[..k + 1][..k] == versions[..k];
  }

  // So far: the first k versions are sorted out, and the counts match what is left.
  ghost predicate Walked(s: State, refs: map<Rep, nat>, kept: seq<Version>, k: nat) {
    && k <= |s.versions| && kept == OnlyGuarded(s, s.versions[..k])
    && Counted<Rep>(refs, s.fileGuards, HeldByLists(s.reps, kept + s.versions[k..]))
  }

  lemma WalkStart(s: State, refs: map<Rep, nat>, vrefs: map<VersionId, nat>)
    requires Good(s, refs, vrefs)
    ensures Walked(s, refs, [], 0)
  {
    hide Inv, VersionsCounted, Counted, HeldByLists;
    assert [] + s.versions[0..] == s.versions;
  }

  lemma WalkStep(s: State, refs: map<Rep, nat>, vrefs: map<VersionId, nat>, now: map<Rep, nat>, kept: seq<Version>,
                 k: nat)
    requires Good(s, refs, vrefs) && Walked(s, now, kept, k) && k < |s.versions|
    ensures s.versions[k].id in vrefs
    ensures vrefs[s.versions[k].id] == 0 ==>
              Holding(now, s.versions[k].files) && Walked(s, DerefsAll(now, s.versions[k].files), kept, k + 1)
    ensures vrefs[s.versions[k].id] != 0 ==> Walked(s, now, kept + [s.versions[k]], k + 1)
  {
    hide Good, Guarded, OnlyGuarded, Counted, HeldByLists, Holding, DerefsAll;
    var v, rest := s.versions[k], s.versions[k + 1..];
    IdThere(s, refs, vrefs, k);
    OnlyGuardedNext(s, s.versions, k);
    assert kept + s.versions[k..] == kept + [v] + rest;
    VersionDropped(now, s.fileGuards, s.reps, kept, v, rest);
  }

  lemma WalkEnd(s: State, refs: map<Rep, nat>, kept: seq<Version>)
    requires Walked(s, refs, kept, |s.versions|)
    ensures kept == OnlyGuarded(s, s.versions) && Counted<Rep>(refs, s.fileGuards, HeldByLists(s.reps, kept))
  {
    hide Counted, OnlyGuarded, HeldByLists;
    assert s.versions[..|s.versions|] == s.versions && kept + s.versions[|s.versions|..] == kept;
  }

  function Gone(s: State, versions: seq<Version>): seq<VersionId> {
    if versions == [] then []
    else Gone(s, versions[..|versions| - 1]) +
         (if Guarded(s, versions[|versions| - 1].id) then [] else [versions[|versions| - 1].id])
  }

  // The descriptors handed over for deletion belong to the versions that are erased.
  lemma {:induction false} GoneMeans(s: State, versions: seq<Version>)
    ensures forall id :: id in Gone(s, versions) <==> HasVersion(versions, id) && !Guarded(s, id)
  {
    hide Guarded;
    if versions != [] {
      var front, last := versions[..|versions| - 1], versions[|versions| - 1];
      GoneMeans(s, front);
      forall id ensures HasVersion(versions, id) <==> HasVersion(front, id) || id == last.id {
        if HasVersion(front, id) {
          var k :| 0 <= k < |front| && front[k].id == id;
          assert versions[k].id == id;
        }
        assert versions[|front|].id == last.id;
      }
    }
  }

  lemma CollectedGood(s: State, refs: map<Rep, nat>, vrefs: map<VersionId, nat>, refs': map<Rep, nat>)
    requires Good(s, refs, vrefs)
    requires Counted<Rep>(refs', s.fileGuards, HeldByLists(s.reps, OnlyGuarded(s, s.versions)))
    ensures Ids(OnlyGuarded(s, s.versions)) <= vrefs.Keys
    ensures Good(CollectVersions(s), refs', map id | id in Ids(OnlyGuarded(s, s.versions)) :: vrefs[id])
  {
    hide Inv, OnlyGuarded, HeldByLists, Counted, VersionBase, Ids;
    CollectVersionsKeeps(s);
    KeptIds(s);
    KeptCounted(s, vrefs);
  }

  lemma KeptIds(s: State)
    ensures Ids(OnlyGuarded(s, s.versions)) <= Ids(s.versions)
  {
    hide OnlyGuarded, Guarded;
    OnlyGuardedMeans(s, s.versions);
    var kept := OnlyGuarded(s, s.versions);
    forall id | id in Ids(kept) ensures id in Ids(s.versions) {
      var k :| 0 <= k < |kept| && kept[k].id == id;
      assert kept[k] in kept;
      var j :| 0 <= j < |s.versions| && s.versions[j] == kept[k];
    }
  }

  // The counts of the versions that stay are still exact.
  lemma KeptCounted(s: State, vrefs: map<VersionId, nat>)
    requires VersionsCounted(vrefs, s)
    ensures Ids(OnlyGuarded(s, s.versions)) <= vrefs.Keys
    ensures VersionsCounted(map id | id in Ids(OnlyGuarded(s, s.versions)) :: vrefs[id], CollectVersions(s))
  {
    hide OnlyGuarded, Ids;
    KeptIds(s);
  }

  // The reps nobody guards, with their names.
  lemma FilesCollectedGood(s: State, refs: map<Rep, nat>, vrefs: map<VersionId, nat>)
    requires Good(s, refs, vrefs)
    ensures Inv(s) && refs.Keys == s.reps.Keys
    ensures forall r | r in s.reps :: r in refs && (refs[r] == 0 <==> !Referenced(s, r))
    ensures Good(CollectFiles(s), map r | r in refs && refs[r] != 0 :: refs[r], vrefs)
  {
    hide Inv, InLists, Referenced;
    CollectFilesKeeps(s);
    GoodKeys(s, refs, vrefs);
    forall r | r in refs ensures refs[r] == 0 <==> !Referenced(s, r) {
      FileCountZero(refs, s, r);
    }
  }

  function NamesWithout(s: State, gone: set<Rep>): map<File, Rep> {
    map f | f in s.names && s.names[f] !in gone :: s.names[f]
  }

  function DiskWithout(s: State, gone: set<Rep>): set<File> {
    set f | f in s.disk && (f in s.names ==> s.names[f] !in gone)
  }

  lemma NothingRemoved(s: State)
    ensures NamesWithout(s, {}) == s.names && DiskWithout(s, {}) == s.disk
  {}

  lemma OneRemoved(s: State, gone: set<Rep>, r: Rep)
    requires Inv(s) && r in s.reps
    ensures NamesWithout(s, gone + {r}) == NamesWithout(s, gone) - {s.reps[r]}
    ensures DiskWithout(s, gone + {r}) == DiskWithout(s, gone) - {s.reps[r]}
  {
    hide GuardsOk, ListsOk, Ascending;
    var f := s.reps[r];
    assert f in s.names && s.names[f] == r;
    forall g | g in s.names && s.names[g] == r ensures g == f {
      assert s.reps[s.names[g]] == g;
    }
  }

  lemma AllRemoved(s: State, gone: set<Rep>)
    requires Inv(s) && forall r | r in s.reps :: r in gone <==> !Referenced(s, r)
    ensures CollectFiles(s) == s.(reps := map r | r in s.reps
              && r !in gone :: s.reps[r], names := NamesWithout(s, gone), disk := DiskWithout(s, gone))
  {
    hide GuardsOk, ListsOk, Ascending, Referenced;
  }

  /* -------------------------------------------------------------- the centers */

  class Centers {
    var reps: map<Rep, File>
    var fileRefs: map<Rep, nat>
    var names: map<File, Rep>
    var disk: set<File>
    var nextRep: Rep
    var versions: seq<Version>
    var versionRefs: map<VersionId, nat>
    var current: Option<VersionId>
    var nextVersion: VersionId
    var fileGuards: seq<Option<Rep>>
    var versionGuards: seq<Option<VersionId>>

    function Value(): State
      reads this
    {
      State(reps, names, disk, nextRep, versions, current, nextVersion, fileGuards, versionGuards)
    }

    ghost predicate Valid()
      reads this
    {
      Good(Value(), fileRefs, versionRefs)
    }

    constructor ()
      ensures Valid() && Value() == Init()
    {
      reps, fileRefs, names, disk, nextRep := map[], map[], map[], {}, 0;
      versions, versionRefs, current, nextVersion := [Version(0, [])], map[0 := 1], Some(0), 1;
      fileGuards, versionGuards := [], [];
      new;
      InitHolds();
      assert versions[0].id == 0;
    }

    method Ref(r: Rep)
      requires r in fileRefs
      modifies this`fileRefs
      ensures fileRefs == old(fileRefs)[r := old(fileRefs[r]) + 1]
    {
      fileRefs := fileRefs[r := fileRefs[r] + 1];
    }

    method Deref(r: Rep)
      requires r in fileRefs && fileRefs[r] > 0
      modifies this`fileRefs
      ensures fileRefs == old(fileRefs)[r := old(fileRefs[r]) - 1]
    {
      fileRefs := fileRefs[r := fileRefs[r] - 1];
    }

    method RefAll(rs: seq<Rep>)
      requires forall r | r in rs :: r in fileRefs
      modifies this`fileRefs
      ensures fileRefs == RefsAll(old(fileRefs), rs) && fileRefs.Keys == old(fileRefs.Keys)
    {
      hide RefsAll;
      NothingTaken(fileRefs);
      for k := 0 to |rs|
        invariant fileRefs == RefsAll(old(fileRefs), rs[..k]) && fileRefs.Keys == old(fileRefs.Keys)
      {
        RefsNext(old(fileRefs), rs, k);
        Ref(rs[k]);
      }
      assert rs[..|rs|] == rs;
    }

    method DerefAll(rs: seq<Rep>)
      requires Holding(fileRefs, rs)
      modifies this`fileRefs
      ensures fileRefs == DerefsAll(old(fileRefs), rs) && fileRefs.Keys == old(fileRefs.Keys)
    {
      hide DerefsAll, Holding;
      NothingTaken(fileRefs);
      for k := 0 to |rs|
        invariant fileRefs == DerefsAll(old(fileRefs), rs[..k]) && fileRefs.Keys == old(fileRefs.Keys)
      {
        DerefsNext(old(fileRefs), rs, k);
        Deref(rs[k]);
      }
      assert rs[..|rs|] == rs;
    }

    method RefVersion(id: VersionId)
      requires id in versionRefs
      modifies this`versionRefs
      ensures versionRefs == old(versionRefs)[id := old(versionRefs[id]) + 1]
    {
      versionRefs := versionRefs[id := versionRefs[id] + 1];
    }

    method DerefVersion(id: VersionId)
      requires id in versionRefs && versionRefs[id] > 0
      modifies this`versionRefs
      ensures versionRefs == old(versionRefs)[id := old(versionRefs[id]) - 1]
    {
      versionRefs := versionRefs[id := versionRefs[id] - 1];
    }

    /* ---- file guards */

    // file_guard::release
    method Release(i: nat)
      requires Valid() && i < |fileGuards|
      modifies this`fileRefs, this`fileGuards
      ensures Valid() && Value() == old(Value()).(fileGuards := old(fileGuards)[i := None])
    {
      hide Good;
      if fileGuards[i].Some? {
        FileCleared(Value(), fileRefs, versionRefs, i);
        Deref(fileGuards[i].value);
        fileGuards := fileGuards[i := None];
      }
    }

    // The copy constructor.
    method Copy(i: nat)
      requires Valid() && i < |fileGuards|
      modifies this`fileRefs, this`fileGuards
      ensures Valid() && Value() == old(Value()).(fileGuards := old(fileGuards) + [old(fileGuards[i])])
    {
      hide Good;
      GoodTargets(Value(), fileRefs, versionRefs);
      FileAdded(Value(), fileRefs, versionRefs, fileGuards[i]);
      fileGuards := fileGuards + [fileGuards[i]];
      if fileGuards[i].Some? {
        Ref(fileGuards[i].value);
      }
    }

    // Copy assignment: the old target is released before the source is read.
    method Assign(i: nat, j: nat)
      requires Valid() && i < |fileGuards| && j < |fileGuards|
      modifies this`fileRefs, this`fileGuards
      ensures Valid() && Value() == old(Value()).(fileGuards := Assigned(old(fileGuards), i, j))
    {
      hide Good;
      Release(i);
      FileFilled(Value(), fileRefs, versionRefs, i, j);
      fileGuards := fileGuards[i := fileGuards[j]];
      if fileGuards[i].Some? {
        Ref(fileGuards[i].value);
      }
      assert fileGuards == Assigned(old(fileGuards), i, j);
    }

    // Move assignment.
    method Move(i: nat, j: nat)
      requires Valid() && i < |fileGuards| && j < |fileGuards|
      modifies this`fileRefs, this`fileGuards
      ensures Valid() && Value() == old(Value()).(fileGuards := Moved(old(fileGuards), i, j))
    {
      hide Good;
      Release(i);
      FileSwapped(Value(), fileRefs, versionRefs, i, j);
      fileGuards := fileGuards[i := fileGuards[j]];
      fileGuards := fileGuards[j := None];
      assert fileGuards == Moved(old(fileGuards), i, j);
    }

    /* ---- version guards */

    // version_guard::release
    method ReleaseVersion(i: nat)
      requires Valid() && i < |versionGuards|
      modifies this`versionRefs, this`versionGuards
      ensures Valid() && Value() == old(Value()).(versionGuards := old(versionGuards)[i := None])
    {
      hide Good;
      if versionGuards[i].Some? {
        VersionCleared(Value(), fileRefs, versionRefs, i);
        DerefVersion(versionGuards[i].value);
        versionGuards := versionGuards[i := None];
      }
    }

    // The copy constructor.
    method CopyVersion(i: nat)
      requires Valid() && i < |versionGuards|
      modifies this`versionRefs, this`versionGuards
      ensures Valid() && Value() == old(Value()).(versionGuards := old(versionGuards) + [old(versionGuards[i])])
    {
      hide Good;
      GoodTargets(Value(), fileRefs, versionRefs);
      VersionAdded(Value(), fileRefs, versionRefs, versionGuards[i]);
      versionGuards := versionGuards + [versionGuards[i]];
      if versionGuards[i].Some? {
        RefVersion(versionGuards[i].value);
      }
    }

    // Copy assignment: the old target is released before the source is read.
    method AssignVersion(i: nat, j: nat)
      requires Valid() && i < |versionGuards| && j < |versionGuards|
      modifies this`versionRefs, this`versionGuards
      ensures Valid() && Value() == old(Value()).(versionGuards := Assigned(old(versionGuards), i, j))
    {
      hide Good;
      ReleaseVersion(i);
      VersionFilled(Value(), fileRefs, versionRefs, i, j);
      versionGuards := versionGuards[i := versionGuards[j]];
      if versionGuards[i].Some? {
        RefVersion(versionGuards[i].value);
      }
      assert versionGuards == Assigned(old(versionGuards), i, j);
    }

    // Move assignment.
    method MoveVersion(i: nat, j: nat)
      requires Valid() && i < |versionGuards| && j < |versionGuards|
      modifies this`versionRefs, this`versionGuards
      ensures Valid() && Value() == old(Value()).(versionGuards := Moved(old(versionGuards), i, j))
    {
      hide Good;
      ReleaseVersion(i);
      VersionSwapped(Value(), fileRefs, versionRefs, i, j);
      versionGuards := versionGuards[i := versionGuards[j]];
      versionGuards := versionGuards[j := None];
      assert versionGuards == Moved(old(versionGuards), i, j);
    }

    /* ---- the file center and the version center */

    method RegisterFile(file: File)
      requires Valid()
      modifies this`reps, this`fileRefs, this`names, this`disk, this`nextRep
      ensures Value() == Register(old(Value()), file) && Valid() && file in names && names[file] in fileRefs
    {
      hide Good, Register;
      ghost var s := Value();
      RegisterGood(s, fileRefs, versionRefs, file);
      RegisterIs(s, file);
      if file !in names {
        reps, fileRefs, names, disk, nextRep := reps[nextRep := file], fileRefs[nextRep := 0],
                                                names[file := nextRep], disk + {file}, nextRep + 1;
      }
      GoodKeys(Register(s, file), fileRefs, versionRefs);
    }

    // file_center::get_file
    method GetFile(file: File)
      requires Valid()
      modifies this`reps, this`fileRefs, this`names, this`disk, this`nextRep, this`fileGuards
      ensures Valid() && Value() == WithFile(old(Value()), file)
    {
      hide Good, Register;
      RegisterFile(file);
      FileAdded(Value(), fileRefs, versionRefs, Some(names[file]));
      fileGuards := fileGuards + [Some(names[file])];
      Ref(names[file]);
    }

    // version_center::current_version
    method TakeCurrent()
      requires Valid()
      modifies this`versionRefs, this`versionGuards
      ensures Valid() && Value() == WithCurrent(old(Value()))
    {
      hide Good;
      GoodTargets(Value(), fileRefs, versionRefs);
      VersionAdded(Value(), fileRefs, versionRefs, current);
      versionGuards := versionGuards + [current];
      RefVersion(current.value);
    }

    // The new version is counted for the guard that makes it current, which leaves the old one.
    method MoveCurrent(id: VersionId)
      requires current.Some? && current.value in versionRefs && versionRefs[current.value] > 0 && current.value != id
      modifies this`versionRefs, this`current
      ensures current == Some(id)
      ensures versionRefs == old(versionRefs)[id := 1][old(current.value) := old(versionRefs[current.value]) - 1]
    {
      CurrentMoved(versionRefs, id, current.value);
      versionRefs := versionRefs[id := 0];
      RefVersion(id);
      DerefVersion(current.value);
      current := Some(id);
    }

    method AppendVersion()
      requires Valid() && versions != []
      modifies this`fileRefs, this`versions, this`versionRefs, this`current, this`nextVersion
      ensures Valid() && Value() == NextVersion(old(Value()))
    {
      hide Good, RefsAll, NextVersion;
      NextVersionGood(Value(), fileRefs, versionRefs);
      NextVersionIs(Value());
      var id, last := nextVersion, versions[|versions| - 1];
      RefAll(last.files);
      versions, nextVersion := versions + [Version(id, last.files)], nextVersion + 1;
      MoveCurrent(id);
    }

    // version_center::add_new_version; the returned guard is the last slot.
    method AddNewVersion()
      requires Valid() && versions != []
      modifies this`fileRefs, this`versions, this`versionRefs, this`current, this`nextVersion, this`versionGuards
      ensures Valid() && Value() == WithCurrent(NextVersion(old(Value())))
    {
      hide Good, NextVersion;
      AppendVersion();
      TakeCurrent();
    }

    // mutable_version_guard::operator+=: the lists are copied guard by guard and dropped again.
    method ApplyDelta(i: nat, added: seq<nat>, compacted: seq<nat>)
      requires Valid() && i < |versionGuards| && versionGuards[i].Some?
      requires AllSome(fileGuards, added) && AllSome(fileGuards, compacted)
      modifies this`fileRefs, this`versions
      ensures Valid()
      ensures Value() == Applied(old(Value()), versionGuards[i].value,
                                 Picked(fileGuards, added), Picked(fileGuards, compacted))
    {
      hide Good, Applied, RefsAll, DerefsAll, Holding, SetDifference, Sorted;
      ghost var s := Value();
      var addedFiles, compactedFiles := Picked(fileGuards, added), Picked(fileGuards, compacted);
      PickedCounted(s, fileRefs, versionRefs, added);
      PickedCounted(s, fileRefs, versionRefs, compacted);
      GuardedVersion(s, fileRefs, versionRefs, i);
      var k :| 0 <= k < |versions| && versions[k].id == versionGuards[i].value;
      var files := versions[k].files;
      AppliedGood(s, fileRefs, versionRefs, k, addedFiles, compactedFiles);
      if addedFiles != [] || compactedFiles != [] {
        var stay := SetDifference(reps, Sorted(reps, files), Sorted(reps, compactedFiles));
        NetCounts(fileRefs, addedFiles, files, compactedFiles, stay);
        HoldingEnough(fileRefs, files);
        RefAll(addedFiles);
        RefAll(files);
        RefAll(compactedFiles);
        RefAll(stay);
        versions := versions[k := Version(versions[k].id, addedFiles + stay)];
        DerefAll(files);
        DerefAll(compactedFiles);
        DerefAll(files);
      }
    }

    // version_center::GC_with: the callback sees every version without a guard, then these are erased.
    method VersionGC() returns (descriptors: seq<VersionId>)
      requires Valid()
      modifies this`fileRefs, this`versions, this`versionRefs
      ensures Valid() && Value() == CollectVersions(old(Value())) && descriptors == Gone(old(Value()), old(versions))
    {
      hide Good, Guarded, OnlyGuarded, Counted, HeldByLists, Holding, DerefsAll;
      ghost var s := Value();
      descriptors := [];
      for k := 0 to |versions|
        modifies {}
        invariant descriptors == Gone(s, versions[..k])
      {
        IdThere(s, fileRefs, versionRefs, k);
        assert versions[..k + 1][..k] == versions[..k];
        if versionRefs[versions[k].id] == 0 {
          descriptors := descriptors + [versions[k].id];
        }
      }
      assert versions[..|versions|] == versions;
      EraseVersions();
    }

    // Walks the list, destroying the versions without a guard.
    method DestroyVersions() returns (kept: seq<Version>)
      requires Valid()
      modifies this`fileRefs
      ensures kept == OnlyGuarded(Value(), versions)
      ensures Counted<Rep>(fileRefs, fileGuards, HeldByLists(reps, kept))
    {
      hide Good, OnlyGuarded, Counted, HeldByLists, Holding, DerefsAll, Walked;
      ghost var s, refs := Value(), fileRefs;
      kept := [];
      WalkStart(s, refs, versionRefs);
      for k := 0 to |versions|
        modifies this`fileRefs
        invariant Walked(s, fileRefs, kept, k)
      {
        WalkStep(s, refs, versionRefs, fileRefs, kept, k);
        if versionRefs[versions[k].id] == 0 {
          DerefAll(versions[k].files);
        } else {
          kept := kept + [versions[k]];
        }
      }
      WalkEnd(s, fileRefs, kept);
    }

    method EraseVersions()
      requires Valid()
      modifies this`fileRefs, this`versions, this`versionRefs
      ensures Valid() && Value() == CollectVersions(old(Value()))
    {
      hide Good, OnlyGuarded, Counted, HeldByLists, Ids;
      var kept := DestroyVersions();
      CollectedGood(old(Value()), old(fileRefs), versionRefs, fileRefs);
      versions, versionRefs := kept, map id | id in Ids(kept) :: versionRefs[id];
    }

    // The names and files of these reps go, one after the other.
    method RemoveNames(removing: set<Rep>, ghost s: State)
      requires s == Value() && Inv(s) && forall r | r in removing :: r in reps
      modifies this`names, this`disk
      ensures names == NamesWithout(s, removing) && disk == DiskWithout(s, removing)
    {
      hide Inv, NamesWithout, DiskWithout;
      NothingRemoved(s);
      var todo := removing;
      assert removing - todo == {};
      while todo != {}
        modifies this`names, this`disk
        invariant todo <= removing
        invariant names == NamesWithout(s, removing - todo) && disk == DiskWithout(s, removing - todo)
      {
        var r :| r in todo;
        OneRemoved(s, removing - todo, r);
        assert removing - (todo - {r}) == removing - todo + {r};
        names, disk := names - {reps[r]}, disk - {reps[r]};
        todo := todo - {r};
      }
      assert removing - {} == removing;
    }

    // file_center::GC: names and files go first, then the reps.
    method FileGC()
      requires Valid()
      modifies this`reps, this`fileRefs, this`names, this`disk
      ensures Valid() && Value() == CollectFiles(old(Value()))
    {
      hide Good, NamesWithout, DiskWithout, CollectFiles;
      ghost var s := Value();
      FilesCollectedGood(s, fileRefs, versionRefs);
      var removing := set r | r in reps && fileRefs[r] == 0;
      RemoveNames(removing, s);
      AllRemoved(s, removing);
      reps, fileRefs := map r | r in reps && r !in removing :: reps[r],
                        map r | r in fileRefs && fileRefs[r] != 0 :: fileRefs[r];
    }

    // garbage_collector::do_GC: nothing happens while another collection runs.
    method DoGC(acquired: bool)
      requires Valid()
      modifies this`reps, this`fileRefs, this`names, this`disk, this`versions, this`versionRefs
      ensures Valid() && Value() == if acquired then Guarding.DoGC(old(Value())) else old(Value())
    {
      hide Good, CollectVersions, CollectFiles;
      if acquired {
        var _ := VersionGC();
        FileGC();
      }
    }
  }
}
