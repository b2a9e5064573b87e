/** Which version of a key a table of blocks answers with (table/sstable.cc get_segment and
    get_kv_entry, over the entries of each block), and when that is the newest visible one. */
module TableLookup {
  import opened Bytes
  import opened Keys
  import opened TableImages

  predicate KeySorted(es: seq<Entry>) {
    forall i, j | 0 <= i < j < |es| :: KeyLess(es[i].key, es[j].key)
  }

  predicate Occurs(es: seq<Entry>, user: Data) {
    exists i | 0 <= i < |es| :: es[i].key.user == user
  }

  // Some version of the key is visible at sequence number q.
  predicate Visible(es: seq<Entry>, user: Data, q: SeqNo) {
    exists i | 0 <= i < |es| :: es[i].key.user == user && es[i].key.seqNo <= q
  }

  // The last entry of the list that is a version of the key visible at q.
  function NewestIn(es: seq<Entry>, user: Data, q: SeqNo): Option<Entry> {
    if es == [] then None
    else
      var e := es[|es| - 1];
      if e.key.user == user && e.key.seqNo <= q then Some(e) else NewestIn(es[..|es| - 1], user, q)
  }

  // The reference meaning of a lookup: the visible version with the greatest sequence number.
  ghost predicate IsNewest(es: seq<Entry>, user: Data, q: SeqNo, r: Option<Entry>) {
    match r
    case None => !Visible(es, user, q)
    case Some(e) =>
      && e in es && e.key.user == user && e.key.seqNo <= q
      && forall i | 0 <= i < |es| && es[i].key.user == user && es[i].key.seqNo <= q :: es[i].key.seqNo <= e.key.seqNo
  }

  lemma {:induction false} NewestInIsNewest(es: seq<Entry>, user: Data, q: SeqNo)
    requires KeySorted(es)
    ensures IsNewest(es, user, q, NewestIn(es, user, q))
  {
    if es != [] {
      var front, e := es[..|es| - 1], es[|es| - 1];
      NewestInIsNewest(front, user, q);
      forall i | 0 <= i < |front| && front[i].key.user == user && e.key.user == user
        ensures front[i].key.seqNo < e.key.seqNo
      {
        assert KeyLess(es[i].key, es[|es| - 1].key);
        KeyLessByUser(front[i].key, e.key);
        UserOrderStrictTotal(user, user, user);
      }
      if NewestIn(es, user, q) == None {
        forall i | 0 <= i < |es| && es[i].key.user == user ensures q < es[i].key.seqNo {
          if i < |front| { assert front[i] == es[i]; }
        }
      }
    }
  }

  lemma {:induction false} NewestInNone(es: seq<Entry>, user: Data, q: SeqNo)
    ensures NewestIn(es, user, q) == None <==> !Visible(es, user, q)
  {
    if es != [] {
      var front := es[..|es| - 1];
      NewestInNone(front, user, q);
      if Visible(front, user, q) {
        var i :| 0 <= i < |front| && front[i].key.user == user && front[i].key.seqNo <= q;
        assert es[i] == front[i];
      }
    }
  }

  lemma {:induction false} NewestInConcat(a: seq<Entry>, b: seq<Entry>, user: Data, q: SeqNo)
    ensures NewestIn(a + b, user, q) == (if NewestIn(b, user, q).Some? then NewestIn(b, user, q)
                                        else NewestIn(a, user, q))
  {
    if b == [] {
      assert a + b == a;
    } else {
      assert (a + b)[..|a + b| - 1] == a + b[..|b| - 1];
      NewestInConcat(a, b[..|b| - 1], user, q);
    }
  }

  /* ---------------------------------------------------------- choosing a block */

  // The block the walk over adjacent blocks ends in: not after the key, and the next one is.
  function PickFrom(parts: seq<seq<Entry>>, j: nat, user: Data): (r: Option<nat>)
    requires j < |parts| && NonEmptyParts(parts)
    ensures r.Some? ==> j <= r.value < |parts|
    decreases |parts| - j
  {
    var starts := !UserLess(user, parts[j][0].key.user);
    if j + 1 == |parts| then if starts then Some(j) else None
    else if starts && UserLess(user, parts[j + 1][0].key.user) then Some(j)
    else PickFrom(parts, j + 1, user)
  }

  // sstable::get_kv_entry on the entries of the blocks.
  function TableGet(parts: seq<seq<Entry>>, user: Data, q: SeqNo): Option<Entry>
    requires NonEmptyParts(parts)
  {
    if parts == [] then None
    else
      match PickFrom(parts, 0, user)
      case None => None
      case Some(j) => NewestIn(parts[j], user, q)
  }

  // The last block that holds the key, if any.
  function LastHolding(parts: seq<seq<Entry>>, user: Data): (r: Option<nat>)
    ensures r.Some? ==> r.value < |parts|
  {
    if parts == [] then None
    else if Occurs(parts[|parts| - 1], user) then Some(|parts| - 1)
    else LastHolding(parts[..|parts| - 1], user)
  }

  lemma {:induction false} LastHoldingMeans(parts: seq<seq<Entry>>, user: Data)
    ensures match LastHolding(parts, user)
            case None => forall k | 0 <= k < |parts| :: !Occurs(parts[k], user)
            case Some(j) =>
              && j < |parts| && Occurs(parts[j], user)
              && forall k | j < k < |parts| :: !Occurs(parts[k], user)
  {
    if parts != [] {
      hide Occurs;
      var front := parts[..|parts| - 1];
      LastHoldingMeans(front, user);
      forall k | 0 <= k < |front| ensures front[k] == parts[k] {}
    }
  }

  lemma SortedHalves(a: seq<Entry>, b: seq<Entry>)
    requires KeySorted(a + b)
    ensures KeySorted(a) && KeySorted(b)
    ensures forall i, j | 0 <= i < |a| && 0 <= j < |b| :: KeyLess(a[i].key, b[j].key)
  {
    hide KeyLess;
    var es := a + b;
    forall i, j | 0 <= i < j < |a| ensures KeyLess(a[i].key, a[j].key) {
      assert es[i] == a[i] && es[j] == a[j];
    }
    forall i, j | 0 <= i < j < |b| ensures KeyLess(b[i].key, b[j].key) {
      assert es[|a| + i] == b[i] && es[|a| + j] == b[j];
    }
    forall i, j | 0 <= i < |a| && 0 <= j < |b| ensures KeyLess(a[i].key, b[j].key) {
      assert es[i] == a[i] && es[|a| + j] == b[j];
    }
  }

  lemma {:induction false} PartsSorted(parts: seq<seq<Entry>>, i: nat)
    requires KeySorted(Flat(parts)) && i < |parts|
    ensures KeySorted(parts[i])
    ensures forall k | 0 <= k < |parts[i]| :: parts[i][k] in Flat(parts)
  {
    SortedHalves(parts[0], Flat(parts[1..]));
    if i > 0 {
      PartsSorted(parts[1..], i - 1);
    }
  }

  // Entries of an earlier block precede those of a later one.
  lemma {:induction false} AcrossParts(parts: seq<seq<Entry>>, i: nat, a: nat, j: nat, b: nat)
    requires KeySorted(Flat(parts)) && i < j < |parts| && a < |parts[i]| && b < |parts[j]|
    ensures KeyLess(parts[i][a].key, parts[j][b].key)
  {
    hide KeyLess;
    SortedHalves(parts[0], Flat(parts[1..]));
    if i > 0 {
      AcrossParts(parts[1..], i - 1, a, j - 1, b);
    } else {
      PartsSorted(parts[1..], j - 1);
      assert parts[1..][j - 1][b] in Flat(parts[1..]);
    }
  }

  lemma {:induction false} PickFinds(parts: seq<seq<Entry>>, j: nat, l: nat, user: Data)
    requires KeySorted(Flat(parts)) && NonEmptyParts(parts) && j <= l < |parts|
    requires Occurs(parts[l], user) && forall k | l < k < |parts| :: !Occurs(parts[k], user)
    ensures PickFrom(parts, j, user) == Some(l)
    decreases l - j
  {
    hide KeyLess, UserLess;
    var a :| 0 <= a < |parts[l]| && parts[l][a].key.user == user;
    UserOrderStrictTotal(user, user, user);
    FirstNotAfter(parts, j, l, a);
    if j < l {
      FirstNotAfter(parts, j + 1, l, a);
      PickFinds(parts, j + 1, l, user);
    } else if l + 1 < |parts| {
      AcrossParts(parts, l, a, l + 1, 0);
      KeyLessByUser(parts[l][a].key, parts[l + 1][0].key);
      assert parts[l + 1][0].key.user != user by {
        assert !Occurs(parts[l + 1], user);
      }
    }
  }

  lemma FirstNotAfter(parts: seq<seq<Entry>>, j: nat, l: nat, a: nat)
    requires KeySorted(Flat(parts)) && NonEmptyParts(parts) && j <= l < |parts| && a < |parts[l]|
    ensures !UserLess(parts[l][a].key.user, parts[j][0].key.user)
  {
    hide KeyLess, UserLess;
    var u, f := parts[l][a].key, parts[j][0].key;
    UserOrderStrictTotal(f.user, u.user, u.user);
    KeyLessByUser(f, u);
    if j < l {
      AcrossParts(parts, j, 0, l, a);
    } else if a > 0 {
      PartsSorted(parts, l);
      assert KeyLess(parts[l][0].key, parts[l][a].key);
    }
  }

  // A lookup answers from the last block that holds the key.
  lemma TableGetFromLast(parts: seq<seq<Entry>>, user: Data, q: SeqNo)
    requires KeySorted(Flat(parts)) && NonEmptyParts(parts)
    ensures TableGet(parts, user, q) == (match LastHolding(parts, user)
                                         case None => None
                                         case Some(l) => NewestIn(parts[l], user, q))
  {
    hide UserLess, KeySorted;
    LastHoldingMeans(parts, user);
    match LastHolding(parts, user)
    case Some(l) => PickFinds(parts, 0, l, user);
    case None =>
      if parts != [] {
        match PickFrom(parts, 0, user)
        case None =>
        case Some(j) =>
          NewestInNone(parts[j], user, q);
      }
  }

  function Later(last: Option<Entry>, earlier: Option<Entry>): Option<Entry> {
    if last.Some? then last else earlier
  }

  lemma {:induction false} NewestInFlat(parts: seq<seq<Entry>>, user: Data, q: SeqNo)
    ensures match LastHolding(parts, user)
            case None => NewestIn(Flat(parts), user, q) == None
            case Some(l) =>
              NewestIn(Flat(parts), user, q) ==
              Later(NewestIn(parts[l], user, q), NewestIn(Flat(parts[..l]), user, q))
  {
    if parts != [] {
      hide Occurs;
      var n := |parts| - 1;
      assert parts == parts[..n] + [parts[n]];
      FlatAppend(parts[..n], parts[n]);
      NewestInConcat(Flat(parts[..n]), parts[n], user, q);
      NewestInFlat(parts[..n], user, q);
      NotThere(parts[n], user, q);
      if !Occurs(parts[n], user) && LastHolding(parts, user).Some? {
        var l := LastHolding(parts, user).value;
        assert parts[..n][..l] == parts[..l];
      }
    }
  }

  lemma NotThere(es: seq<Entry>, user: Data, q: SeqNo)
    ensures !Occurs(es, user) ==> NewestIn(es, user, q) == None
  {
    NewestInNone(es, user, q);
  }

  // SSTable lookup, exactly: the newest visible version is returned if and only if some version is
  // visible in the last block holding the key, or none is visible in the whole table.
  lemma LookupExact(parts: seq<seq<Entry>>, user: Data, q: SeqNo)
    requires KeySorted(Flat(parts)) && NonEmptyParts(parts)
    ensures IsNewest(Flat(parts), user, q, TableGet(parts, user, q)) <==>
            (Visible(Flat(parts), user, q) ==>
               LastHolding(parts, user).Some? && Visible(parts[LastHolding(parts, user).value], user, q))
  {
    hide Visible, KeySorted, KeyLess, Occurs;
    TableGetFromLast(parts, user, q);
    NewestInFlat(parts, user, q);
    NewestInIsNewest(Flat(parts), user, q);
    NewestInNone(Flat(parts), user, q);
    LastHoldingMeans(parts, user);
    match LastHolding(parts, user)
    case None =>
    case Some(l) => NewestInNone(parts[l], user, q);
  }

  // The two situations the database relies on: all versions in one block, or a query at least as
  // new as every version.
  lemma LookupNewest(parts: seq<seq<Entry>>, user: Data, q: SeqNo)
    requires KeySorted(Flat(parts)) && NonEmptyParts(parts)
    requires (forall i | 0 <= i < |Flat(parts)| && Flat(parts)[i].key.user == user :: Flat(parts)[i].key.seqNo <= q)
          || (forall j, k | 0 <= j < k < |parts| :: !(Occurs(parts[j], user) && Occurs(parts[k], user)))
    ensures IsNewest(Flat(parts), user, q, TableGet(parts, user, q))
    ensures TableGet(parts, user, q) == NewestIn(Flat(parts), user, q)
  {
    hide KeySorted, KeyLess, Occurs, Visible;
    TableGetFromLast(parts, user, q);
    NewestInFlat(parts, user, q);
    NewestInIsNewest(Flat(parts), user, q);
    LastHoldingMeans(parts, user);
    match LastHolding(parts, user)
    case None =>
    case Some(l) =>
      NewestInNone(parts[l], user, q);
      NewestInNone(Flat(parts[..l]), user, q);
      if forall j, k | 0 <= j < k < |parts| :: !(Occurs(parts[j], user) && Occurs(parts[k], user)) {
        NotInEarlier(parts, l, user, q);
      } else {
        VisibleInLast(parts, l, user, q);
      }
  }

  lemma {:induction false} NotInEarlier(parts: seq<seq<Entry>>, l: nat, user: Data, q: SeqNo)
    requires l < |parts| && forall k | 0 <= k < l :: !(Occurs(parts[k], user) && Occurs(parts[l], user))
    requires Occurs(parts[l], user)
    ensures NewestIn(Flat(parts[..l]), user, q) == None
  {
    hide Occurs;
    LastHoldingMeans(parts[..l], user);
    NewestInFlat(parts[..l], user, q);
  }

  lemma VisibleInLast(parts: seq<seq<Entry>>, l: nat, user: Data, q: SeqNo)
    requires l < |parts| && Occurs(parts[l], user)
    requires forall i | 0 <= i < |Flat(parts)| && Flat(parts)[i].key.user == user :: Flat(parts)[i].key.seqNo <= q
    ensures Visible(parts[l], user, q)
  {
    var a :| 0 <= a < |parts[l]| && parts[l][a].key.user == user;
    assert parts == parts[..l] + [parts[l]] + parts[l + 1..];
    FlatConcat(parts[..l] + [parts[l]], parts[l + 1..]);
    FlatAppend(parts[..l], parts[l]);
    var i := |Flat(parts[..l])| + a;
    assert Flat(parts)[i] == parts[l][a];
  }

  // Two versions of one key, asked for at a number that only the older one has reached: in one block the
  // older one is found, in two blocks it is missed.
  lemma SplitKeyMissed(older: Entry, newer: Entry, q: SeqNo)
    requires older.key.user == newer.key.user && older.key.seqNo <= q < newer.key.seqNo
    ensures KeySorted([older, newer]) && Flat([[older, newer]]) == [older, newer] == Flat([[older], [newer]])
    ensures NewestIn([older, newer], older.key.user, q) == Some(older)
    ensures TableGet([[older, newer]], older.key.user, q) == Some(older)
    ensures TableGet([[older], [newer]], older.key.user, q) == None
  {
    hide *;
    PairSorted(older, newer);
    PairFlat(older, newer);
    PairPicks(older, newer);
    PairNewest(older, newer, q);
    PairGets(older, newer, q);
  }

  lemma PairSorted(older: Entry, newer: Entry)
    requires older.key.user == newer.key.user && older.key.seqNo < newer.key.seqNo
    ensures KeySorted([older, newer])
  {
    hide UserLess, KeyLess;
    KeyLessByUser(older.key, newer.key);
  }

  lemma PairFlat(older: Entry, newer: Entry)
    ensures Flat([[older, newer]]) == [older, newer] == Flat([[older], [newer]])
  {
    FlatAppend([], [older, newer]);
    FlatAppend([], [older]);
    FlatAppend([[older]], [newer]);
    assert [] + [[older, newer]] == [[older, newer]] && [] + [older, newer] == [older, newer];
    assert [[older], [newer]] == [[older]] + [[newer]] && [] + [[older]] == [[older]];
  }

  lemma PairPicks(older: Entry, newer: Entry)
    requires older.key.user == newer.key.user
    ensures NonEmptyParts([[older, newer]]) && PickFrom([[older, newer]], 0, older.key.user) == Some(0)
    ensures NonEmptyParts([[older], [newer]]) && PickFrom([[older], [newer]], 0, older.key.user) == Some(1)
  {
    hide UserLess;
    UserOrderStrictTotal(older.key.user, older.key.user, older.key.user);
    assert PickFrom([[older], [newer]], 1, older.key.user) == Some(1);
  }

  lemma PairNewest(older: Entry, newer: Entry, q: SeqNo)
    requires older.key.user == newer.key.user && older.key.seqNo <= q < newer.key.seqNo
    ensures NewestIn([older, newer], older.key.user, q) == Some(older) && NewestIn([newer], older.key.user, q) == None
  {
    assert [older, newer][..1] == [older] && [newer][..0] == [];
  }

  lemma PairGets(older: Entry, newer: Entry, q: SeqNo)
    requires NonEmptyParts([[older, newer]]) && PickFrom([[older, newer]], 0, older.key.user) == Some(0)
    requires NonEmptyParts([[older], [newer]]) && PickFrom([[older], [newer]], 0, older.key.user) == Some(1)
    ensures TableGet([[older, newer]], older.key.user, q) == NewestIn([older, newer], older.key.user, q)
    ensures TableGet([[older], [newer]], older.key.user, q) == NewestIn([newer], older.key.user, q)
  {
    hide PickFrom, NewestIn;
  }
}
