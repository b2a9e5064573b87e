/** File guards, version guards and the two collections (include/frenzykv/util/file_guard.h,
    include/frenzykv/db/version.h, util/file_center.cc, db/garbage_collector.cc), seen through
    what the guards point to. A guard is a numbered slot; an empty slot is a null guard. */
module Guarding {
  import opened Bytes

  type Rep = nat
  type VersionId = nat

  /* The file a rep stands for; its name is made of exactly these two. */
  datatype File = File(level: nat, id: nat)
  datatype Version = Version(id: VersionId, files: seq<Rep>)

  datatype State = State(
    reps: map<Rep, File>, names: map<File, Rep>, disk: set<File>, nextRep: Rep,
    versions: seq<Version>, current: Option<VersionId>, nextVersion: VersionId,
    fileGuards: seq<Option<Rep>>, versionGuards: seq<Option<VersionId>>)

  function Init(): State {
    State(map[], map[], {}, 0, [Version(0, [])], Some(0), 1, [], [])
  }

  /* -------------------------------------------------------------- guard slots */

  // Copy assignment releases the target first, so a guard assigned to itself ends up empty.
  function Assigned<T>(slots: seq<Option<T>>, i: nat, j: nat): seq<Option<T>>
    requires i < |slots| && j < |slots|
  {
    slots[i := if i == j then None else slots[j]]
  }

  function Moved<T>(slots: seq<Option<T>>, i: nat, j: nat): seq<Option<T>>
    requires i < |slots| && j < |slots|
  {
    Assigned(slots, i, j)[j := None]
  }

  /* --------------------------------------------------------- order and deltas */

  // file_rep::operator<
  predicate FileLess(a: File, b: File) {
    a.level < b.level || (a.level == b.level && a.id < b.id)
  }

  predicate RepLess(reps: map<Rep, File>, a: Rep, b: Rep) {
    a in reps && b in reps && FileLess(reps[a], reps[b])
  }

  predicate Ordered(reps: map<Rep, File>, rs: seq<Rep>) {
    forall i, j | 0 <= i < j < |rs| :: !RepLess(reps, rs[j], rs[i])
  }

  function Inserted(reps: map<Rep, File>, rs: seq<Rep>, r: Rep): seq<Rep> {
    if rs == [] || !RepLess(reps, r, rs[|rs| - 1]) then rs + [r]
    else Inserted(reps, rs[..|rs| - 1], r) + [rs[|rs| - 1]]
  }

  function Sorted(reps: map<Rep, File>, rs: seq<Rep>): seq<Rep> {
    if rs == [] then [] else Inserted(reps, Sorted(reps, rs[..|rs| - 1]), rs[|rs| - 1])
  }

  // std::set_difference on two sorted ranges.
  function SetDifference(reps: map<Rep, File>, a: seq<Rep>, b: seq<Rep>): seq<Rep>
    decreases |a| + |b|
  {
    if a == [] || b == [] then a
    else if RepLess(reps, a[0], b[0]) then [a[0]] + SetDifference(reps, a[1..], b)
    else if RepLess(reps, b[0], a[0]) then SetDifference(reps, a, b[1..])
    else SetDifference(reps, a[1..], b[1..])
  }

  // version_rep::operator+=
  function WithDelta(reps: map<Rep, File>, files: seq<Rep>, added: seq<Rep>, compacted: seq<Rep>): seq<Rep> {
    if added == [] && compacted == [] then files
    else added + SetDifference(reps, Sorted(reps, files), Sorted(reps, compacted))
  }

  /* -------------------------------------------------------------------- steps */

  datatype Op =
    | Empty | Copy(i: nat) | Assign(i: nat, j: nat) | Move(i: nat, j: nat) | Release(i: nat)
    | EmptyV | CopyV(i: nat) | AssignV(i: nat, j: nat) | MoveV(i: nat, j: nat) | ReleaseV(i: nat)
    | GetFile(file: File) | TakeCurrent | AddVersion
    | Apply(i: nat, added: seq<nat>, compacted: seq<nat>)
    | VersionGC | FileGC

  predicate AllSome(slots: seq<Option<Rep>>, picks: seq<nat>) {
    forall p | p in picks :: p < |slots| && slots[p].Some?
  }

  function Picked(slots: seq<Option<Rep>>, picks: seq<nat>): (rs: seq<Rep>)
    requires AllSome(slots, picks)
    ensures |rs| == |picks|
  {
    seq(|picks|, k requires 0 <= k < |picks| => assert picks[k] in picks; slots[picks[k]].value)
  }

  predicate Enabled(s: State, op: Op) {
    match op
    case Copy(i) => i < |s.fileGuards|
    case Assign(i, j) => i < |s.fileGuards| && j < |s.fileGuards|
    case Move(i, j) => i < |s.fileGuards| && j < |s.fileGuards|
    case Release(i) => i < |s.fileGuards|
    case CopyV(i) => i < |s.versionGuards|
    case AssignV(i, j) => i < |s.versionGuards| && j < |s.versionGuards|
    case MoveV(i, j) => i < |s.versionGuards| && j < |s.versionGuards|
    case ReleaseV(i) => i < |s.versionGuards|
    case AddVersion => s.versions != []
    case Apply(i, added, compacted) =>
      && i < |s.versionGuards| && s.versionGuards[i].Some?
      && AllSome(s.fileGuards, added) && AllSome(s.fileGuards, compacted)
    case _ => true
  }

  // file_center::get_file: the registered rep, or a new one under a new address.
  function Register(s: State, file: File): State {
    if file in s.names then s
    else s.(reps := s.reps[s.nextRep := file], names := s.names[file := s.nextRep],
            disk := s.disk + {file}, nextRep := s.nextRep + 1)
  }

  function WithFile(s: State, file: File): State {
    var s' := Register(s, file);
    s'.(fileGuards := s'.fileGuards + [Some(s'.names[file])])
  }

  // version_center::current_version
  function WithCurrent(s: State): State {
    s.(versionGuards := s.versionGuards + [s.current])
  }

  // version_center::add_new_version: a copy of the last version becomes the current one.
  function NextVersion(s: State): State
    requires s.versions != []
  {
    var files := s.versions[|s.versions| - 1].files;
    s.(versions := s.versions + [Version(s.nextVersion, files)], current := Some(s.nextVersion),
        nextVersion := s.nextVersion + 1)
  }

  function Changed(versions: seq<Version>, id: VersionId, reps: map<Rep, File>, added: seq<Rep>,
                   compacted: seq<Rep>): (r: seq<Version>)
    ensures |r| == |versions|
  {
    seq(|versions|, k requires 0 <= k < |versions| =>
      if versions[k].id == id then Version(id, WithDelta(reps, versions[k].files, added, compacted)) else versions[k])
  }

  function Applied(s: State, id: VersionId, added: seq<Rep>, compacted: seq<Rep>): State {
    s.(versions := Changed(s.versions, id, s.reps, added, compacted))
  }

  predicate Guarded(s: State, id: VersionId) {
    s.current == Some(id) || Some(id) in s.versionGuards
  }

  predicate InVersions(versions: seq<Version>, r: Rep) {
    exists k | 0 <= k < |versions| :: r in versions[k].files
  }

  predicate Referenced(s: State, r: Rep) {
    Some(r) in s.fileGuards || InVersions(s.versions, r)
  }

  function OnlyGuarded(s: State, versions: seq<Version>): seq<Version> {
    if versions == [] then []
    else OnlyGuarded(s, versions[..|versions| - 1]) +
         (if Guarded(s, versions[|versions| - 1].id) then [versions[|versions| - 1]] else [])
  }

  // version_center::GC: versions without a guard go.
  function CollectVersions(s: State): State {
    s.(versions := OnlyGuarded(s, s.versions))
  }

  // file_center::GC: reps without a guard go, with their names and their files on disk.
  function CollectFiles(s: State): State {
    s.(reps := map r | r in s.reps && Referenced(s, r) :: s.reps[r],
       names := map f | f in s.names && Referenced(s, s.names[f]) :: s.names[f],
       disk := set f | f in s.disk && (f in s.names ==> Referenced(s, s.names[f])))
  }

  // garbage_collector::do_GC: versions first, then files.
  function DoGC(s: State): State {
    CollectFiles(CollectVersions(s))
  }

  function Step(s: State, op: Op): State
    requires Enabled(s, op)
  {
    match op
    case Empty => s.(fileGuards := s.fileGuards + [None])
    case Copy(i) => s.(fileGuards := s.fileGuards + [s.fileGuards[i]])
    case Assign(i, j) => s.(fileGuards := Assigned(s.fileGuards, i, j))
    case Move(i, j) => s.(fileGuards := Moved(s.fileGuards, i, j))
    case Release(i) => s.(fileGuards := s.fileGuards[i := None])
    case EmptyV => s.(versionGuards := s.versionGuards + [None])
    case CopyV(i) => s.(versionGuards := s.versionGuards + [s.versionGuards[i]])
    case AssignV(i, j) => s.(versionGuards := Assigned(s.versionGuards, i, j))
    case MoveV(i, j) => s.(versionGuards := Moved(s.versionGuards, i, j))
    case ReleaseV(i) => s.(versionGuards := s.versionGuards[i := None])
    case GetFile(file) => WithFile(s, file)
    case TakeCurrent => WithCurrent(s)
    case AddVersion => WithCurrent(NextVersion(s))
    case Apply(i, added, compacted) =>
      Applied(s, s.versionGuards[i].value, Picked(s.fileGuards, added), Picked(s.fileGuards, compacted))
    case VersionGC => CollectVersions(s)
    case FileGC => CollectFiles(s)
  }

  /* ------------------------------------------------------------------ deltas */

  lemma OrderedSnoc(reps: map<Rep, File>, rs: seq<Rep>, r: Rep)
    requires Ordered(reps, rs) && forall x | x in rs :: !RepLess(reps, r, x)
    ensures Ordered(reps, rs + [r])
  {
    hide RepLess;
    var all := rs + [r];
    forall i, j | 0 <= i < j < |all| ensures !RepLess(reps, all[j], all[i]) {
      assert all[i] == rs[i] && rs[i] in rs;
    }
  }

  lemma OrderedFront(reps: map<Rep, File>, front: seq<Rep>, last: Rep)
    requires Ordered(reps, front + [last])
    ensures Ordered(reps, front) && forall x | x in front :: !RepLess(reps, last, x)
  {
    hide RepLess;
    var rs := front + [last];
    forall x | x in front ensures !RepLess(reps, last, x) {
      var i :| 0 <= i < |front| && front[i] == x;
      assert rs[i] == x && rs[|front|] == last;
    }
    forall i, j | 0 <= i < j < |front| ensures !RepLess(reps, front[j], front[i]) {
      assert rs[i] == front[i] && rs[j] == front[j];
    }
  }

  lemma NotLessTransitive(reps: map<Rep, File>, a: Rep, b: Rep, c: Rep)
    requires a in reps && b in reps && c in reps && !RepLess(reps, a, b) && !RepLess(reps, b, c)
    ensures !RepLess(reps, a, c)
  {}

  lemma InsertedMultiset(reps: map<Rep, File>, rs: seq<Rep>, r: Rep)
    ensures multiset(Inserted(reps, rs, r)) == multiset(rs) + multiset{r}
  {
    hide RepLess;
    if rs != [] {
      var front, last := rs[..|rs| - 1], rs[|rs| - 1];
      assert rs == front + [last];
      InsertedMultiset(reps, front, r);
    }
  }

  lemma {:induction false} InsertedOrdered(reps: map<Rep, File>, rs: seq<Rep>, r: Rep)
    requires Ordered(reps, rs) && r in reps && (forall x | x in rs :: x in reps)
    ensures Ordered(reps, Inserted(reps, rs, r))
  {
    hide RepLess, Ordered;
    if rs == [] {
      OrderedSnoc(reps, [], r);
    } else {
      var front, last := rs[..|rs| - 1], rs[|rs| - 1];
      assert rs == front + [last];
      OrderedFront(reps, front, last);
      if RepLess(reps, r, last) {
        assert forall x | x in front :: x in rs;
        InsertedOrdered(reps, front, r);
        InsertedMultiset(reps, front, r);
        var s := Inserted(reps, front, r);
        forall x | x in s ensures !RepLess(reps, last, x) {
          assert x in multiset(s);
          if x == r { Asymmetric(reps, r, last); }
        }
        OrderedSnoc(reps, s, last);
      } else {
        forall x | x in rs ensures !RepLess(reps, r, x) {
          if x != last {
            assert x in front;
            NotLessTransitive(reps, r, last, x);
          }
        }
        OrderedSnoc(reps, rs, r);
      }
    }
  }

  lemma Asymmetric(reps: map<Rep, File>, a: Rep, b: Rep)
    requires RepLess(reps, a, b)
    ensures !RepLess(reps, b, a)
  {}

  lemma {:induction false} SortedKeeps(reps: map<Rep, File>, rs: seq<Rep>)
    requires forall x | x in rs :: x in reps
    ensures Ordered(reps, Sorted(reps, rs)) && multiset(Sorted(reps, rs)) == multiset(rs)
  {
    hide RepLess;
    if rs != [] {
      var front, last := rs[..|rs| - 1], rs[|rs| - 1];
      assert rs == front + [last];
      SortedKeeps(reps, front);
      var s := Sorted(reps, front);
      forall x | x in s ensures x in reps {
        assert x in multiset(front);
      }
      InsertedOrdered(reps, s, last);
      InsertedMultiset(reps, s, last);
    }
  }

  // Two reps never stand for the same file.
  predicate OnePerFile(reps: map<Rep, File>) {
    forall a, b | a in reps && b in reps && reps[a] == reps[b] :: a == b
  }

  lemma OrderedRest(reps: map<Rep, File>, rs: seq<Rep>)
    requires Ordered(reps, rs) && rs != []
    ensures Ordered(reps, rs[1..]) && rs == [rs[0]] + rs[1..]
  {}

  lemma HeadBelow(reps: map<Rep, File>, x: Rep, rs: seq<Rep>)
    requires Ordered(reps, rs) && rs != [] && RepLess(reps, x, rs[0]) && forall r | r in rs :: r in reps
    ensures x !in rs
  {}

  // On sorted ranges the two-pointer walk is exactly the multiset difference.
  lemma {:induction false} SetDifferenceExact(reps: map<Rep, File>, a: seq<Rep>, b: seq<Rep>)
    requires OnePerFile(reps) && Ordered(reps, a) && Ordered(reps, b) && (forall r | r in a :: r in reps)
    requires (forall r | r in b :: r in reps)
    ensures multiset(SetDifference(reps, a, b)) == multiset(a) - multiset(b)
    decreases |a| + |b|
  {
    hide Ordered, OnePerFile, RepLess;
    if a != [] && b != [] {
      OrderedRest(reps, a);
      OrderedRest(reps, b);
      var x, y, restA, restB := a[0], b[0], multiset(a[1..]), multiset(b[1..]);
      assert multiset(a) == multiset{x} + restA && multiset(b) == multiset{y} + restB;
      if RepLess(reps, x, y) {
        HeadBelow(reps, x, b);
        SetDifferenceExact(reps, a[1..], b);
        assert x !in multiset(b);
        HeadKept(restA, multiset(b), x);
      } else if RepLess(reps, y, x) {
        HeadBelow(reps, y, a);
        SetDifferenceExact(reps, a, b[1..]);
        assert y !in multiset(a);
        HeadSkipped(multiset(a), restB, y);
      } else {
        SameFile(reps, x, y);
        SetDifferenceExact(reps, a[1..], b[1..]);
        HeadsCancel(restA, restB, x);
      }
    }
  }

  lemma HeadKept(a: multiset<Rep>, b: multiset<Rep>, x: Rep)
    requires x !in b
    ensures multiset{x} + (a - b) == (multiset{x} + a) - b
  {}

  lemma HeadSkipped(a: multiset<Rep>, b: multiset<Rep>, y: Rep)
    requires y !in a
    ensures a - (multiset{y} + b) == a - b
  {}

  lemma HeadsCancel(a: multiset<Rep>, b: multiset<Rep>, x: Rep)
    ensures (multiset{x} + a) - (multiset{x} + b) == a - b
  {}

  lemma SameFile(reps: map<Rep, File>, a: Rep, b: Rep)
    requires OnePerFile(reps) && a in reps && b in reps && !RepLess(reps, a, b) && !RepLess(reps, b, a)
    ensures a == b
  {
    assert reps[a] == reps[b];
  }

  // Installing a delta: the added files and the old ones that were not compacted, each as often as
  // it was there.
  lemma DeltaExact(reps: map<Rep, File>, files: seq<Rep>, added: seq<Rep>, compacted: seq<Rep>)
    requires OnePerFile(reps) && (forall r | r in files :: r in reps) && (forall r | r in compacted :: r in reps)
    ensures multiset(WithDelta(reps, files, added, compacted)) ==
              multiset(added) + (multiset(files) - multiset(compacted))
  {
    hide Ordered, OnePerFile, RepLess, Sorted, SetDifference;
    var f, c := Sorted(reps, files), Sorted(reps, compacted);
    SortedKeeps(reps, files);
    SortedKeeps(reps, compacted);
    forall r | r in f ensures r in reps { assert r in multiset(f); }
    forall r | r in c ensures r in reps { assert r in multiset(c); }
    SetDifferenceExact(reps, f, c);
  }

  predicate NoDuplicates(rs: seq<Rep>) {
    forall i, j | 0 <= i < j < |rs| :: rs[i] != rs[j]
  }

  // The new list holds no file twice exactly when the added files are distinct and none of them is
  // an old file that stays.
  lemma DeltaNoDuplicates(reps: map<Rep, File>, files: seq<Rep>, added: seq<Rep>, compacted: seq<Rep>)
    requires OnePerFile(reps) && (forall r | r in files :: r in reps) && (forall r | r in compacted :: r in reps)
    requires NoDuplicates(files)
    ensures NoDuplicates(WithDelta(reps, files, added, compacted))
        <==> NoDuplicates(added) && forall r | r in added :: r !in files || r in compacted
    ensures forall r :: r in WithDelta(reps, files, added, compacted) <==> r in added || (r in files && r !in compacted)
  {
    hide WithDelta, OnePerFile, NoDuplicates;
    DeltaExact(reps, files, added, compacted);
    var out := WithDelta(reps, files, added, compacted);
    var m := multiset(added) + (multiset(files) - multiset(compacted));
    forall r ensures multiset(files)[r] <= 1 { Counting(files); }
    Counting(files);
    Counting(added);
    Counting(out);
    forall r ensures r in out <==> r in added || (r in files && r !in compacted) {
      assert r in out <==> r in multiset(out);
      assert m[r] == multiset(added)[r] + (multiset(files) - multiset(compacted))[r];
    }
    forall r ensures m[r] <= 1 <==> multiset(added)[r] <= 1 && (r in added ==> r !in files || r in compacted) {
      assert r in added <==> r in multiset(added);
      assert r in compacted <==> r in multiset(compacted);
      assert r in files <==> r in multiset(files);
    }
  }

  // No element twice, in terms of multiplicities.
  lemma {:induction false} Counting(rs: seq<Rep>)
    ensures NoDuplicates(rs) <==> forall r :: multiset(rs)[r] <= 1
  {
    if rs != [] {
      var front, last := rs[..|rs| - 1], rs[|rs| - 1];
      assert rs == front + [last];
      Counting(front);
      assert forall r :: multiset(rs)[r] == multiset(front)[r] + (if r == last then 1 else 0);
      if NoDuplicates(front) && last !in front {
        assert multiset(front)[last] == 0;
      }
      if !NoDuplicates(front) {
        assert !NoDuplicates(rs) by {
          var i, j :| 0 <= i < j < |front| && front[i] == front[j];
          assert rs[i] == rs[j];
        }
      } else if last in front {
        assert multiset(rs)[last] >= 2;
        var i :| 0 <= i < |front| && front[i] == last;
        assert rs[i] == rs[|rs| - 1];
      }
    }
  }
}
