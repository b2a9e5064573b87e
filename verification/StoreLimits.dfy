/** Limits on what the store holds, that a caller can keep: no step but a write adds a version, and a
    write adds one per entry. */
module StoreLimits {
  import opened Keys
  import opened TableImages
  import opened TableLookup
  import opened TableLimits
  import opened TableWriting
  import opened Store
  import opened StoreInvariant
  import opened StoreRefinement

  // Every version in the memtable and in the files of the current version.
  ghost function HeldSet(s: State): set<Entry> {
    if s.versions == [] then {}
    else (set e | e in s.mem) + (set f, e | f in Current(s) && f in s.disk && e in Contents(s.disk[f]) :: e)
  }

  lemma HeldSetHolds(s: State)
    requires s.versions != []
    ensures forall e :: e in HeldSet(s) <==> Holds(s, e)
  {
    hide Contents;
  }

  ghost function HeldCount(s: State): nat {
    |HeldSet(s)|
  }

  predicate Small(e: Entry) {
    ValidEntry(e) && EntrySize(e) <= MAX_ENTRY
  }

  ghost predicate Bounded(s: State) {
    s.versions != [] && HeldCount(s) <= MAX_HELD && forall e | Holds(s, e) :: Small(e)
  }

  predicate SmallWrites(batch: seq<Write>) {
    forall w | w in batch :: Small(Entry(SeqKey(0, w.user), w.value))
  }

  // What is held can be written out, however it is cut into blocks and tables.
  lemma BoundedFits(cfg: TableConfig, s: State, es: seq<Entry>)
    requires Roomy(cfg) && Bounded(s) && KeySorted(es) && forall e | e in es :: Holds(s, e)
    ensures RunsFit(cfg, es)
  {
    hide Roomy, KeySorted, Holds, ValidEntry, EntrySize, RunsFit, HeldSet;
    HeldSetHolds(s);
    LimitsFit(cfg, HeldSet(s), es);
  }

  lemma InitBounded()
    ensures Bounded(Init()) && HeldCount(Init()) == 0
  {
    assert HeldSet(Init()) == {};
  }

  lemma BoundedSubset(s: State, s': State)
    requires Bounded(s) && s'.versions != [] && forall e | Holds(s', e) :: Holds(s, e)
    ensures Bounded(s') && HeldCount(s') <= HeldCount(s)
  {
    hide Holds, Small, HeldSet;
    HeldSetHolds(s);
    HeldSetHolds(s');
    SubsetSize(HeldSet(s'), HeldSet(s));
  }

  lemma PutOneBounded(s: State, w: Write)
    requires s.versions != [] && s.nextSeq < 0x1_0000_0000 && HeldCount(s) < MAX_HELD
    requires (forall e | Holds(s, e) :: Small(e))
    requires Small(Entry(SeqKey(0, w.user), w.value))
    ensures Bounded(PutOne(s, w)) && HeldCount(PutOne(s, w)) <= HeldCount(s) + 1
  {
    hide Contents, HeldSet;
    var s', added := PutOne(s, w), Entry(SeqKey(s.nextSeq, w.user), w.value);
    forall x ensures Holds(s', x) <==> Holds(s, x) || x == added {
      InsertHolds(s.mem, added);
    }
    HeldSetHolds(s);
    HeldSetHolds(s');
    SubsetSize(HeldSet(s'), HeldSet(s) + {added});
  }

  lemma {:induction false} PutAllBounded(s: State, batch: seq<Write>)
    requires s.versions != [] && s.nextSeq + |batch| <= 0x1_0000_0000 && HeldCount(s) + |batch| <= MAX_HELD
    requires (forall e | Holds(s, e) :: Small(e)) && SmallWrites(batch)
    ensures var s' := PutAll(s, batch); Bounded(s') && HeldCount(s') <= HeldCount(s) + |batch|
    decreases |batch|
  {
    hide Holds, Small, HeldCount;
    if batch != [] {
      assert batch[0] in batch;
      PutOneBounded(s, batch[0]);
      PutAllBounded(PutOne(s, batch[0]), batch[1..]);
    }
  }

  lemma SmallGood(batch: seq<Write>)
    requires SmallWrites(batch)
    ensures forall w | w in batch :: GoodWrite(w)
  {}
}
