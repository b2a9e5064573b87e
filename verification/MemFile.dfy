/** The in-memory file: blocks of one size that together stand for one byte string
    (io/in_mem_rw.cc). */
module MemFile {
  import opened Bytes
  import opened Buffers

  function Joined(spans: seq<Data>): Data {
    if spans == [] then [] else Joined(spans[..|spans| - 1]) + spans[|spans| - 1]
  }

  // All spans but the last are of full size, the last is at most that.
  predicate Chunked(spans: seq<Data>, size: nat) {
    && spans != [] && size >= 1
    && (forall i | 0 <= i < |spans| - 1 :: |spans[i]| == size)
    && |spans[|spans| - 1]| <= size
  }

  lemma JoinedSnoc(spans: seq<Data>, s: Data)
    ensures Joined(spans + [s]) == Joined(spans) + s
  {
    assert (spans + [s])[..|spans|] == spans;
  }

  lemma {:induction false} JoinedConcat(a: seq<Data>, b: seq<Data>)
    ensures Joined(a + b) == Joined(a) + Joined(b)
  {
    hide Joined;
    if b == [] {
      assert a + b == a;
      JoinedEmpty();
    } else {
      var front, last := b[..|b| - 1], b[|b| - 1];
      JoinedConcat(a, front);
      assert a + b == (a + front) + [last] && b == front + [last];
      JoinedSnoc(a + front, last);
      JoinedSnoc(front, last);
    }
  }

  lemma JoinedEmpty()
    ensures Joined([]) == []
  {}

  // Block k starts at k times the block size.
  lemma {:induction false} BlockStart(spans: seq<Data>, size: nat, k: nat)
    requires Chunked(spans, size) && k < |spans|
    ensures |Joined(spans[..k])| == k * size
    decreases k
  {
    if k > 0 {
      BlockStart(spans, size, k - 1);
      assert spans[..k] == spans[..k - 1] + [spans[k - 1]];
      JoinedSnoc(spans[..k - 1], spans[k - 1]);
    }
  }

  // Where a read may start: the block exists and holds that many bytes.
  predicate InBlocks(spans: seq<Data>, size: nat, offset: nat)
    requires size >= 1
  {
    offset / size < |spans| && offset % size <= |spans[offset / size]|
  }

  lemma JoinedOne(s: Data)
    ensures Joined([s]) == s
  {
    assert [s][..0] == [];
  }

  lemma JoinedTwo(s: Data, rest: seq<Data>)
    ensures Joined([s] + rest) == s + Joined(rest)
  {
    JoinedConcat([s], rest);
    JoinedOne(s);
  }

  function SpansAt(spans: seq<Data>, k: nat, c: nat): seq<Data>
    requires k < |spans| && c <= |spans[k]|
  {
    [spans[k][c..]] + spans[k + 1..]
  }

  // The spans from the block of an offset on, the first without the bytes before the offset, are
  // the content from the offset on.
  lemma SpansFrom(spans: seq<Data>, size: nat, k: nat, c: nat)
    requires Chunked(spans, size) && k < |spans| && c <= |spans[k]|
    ensures k * size + c <= |Joined(spans)| && Joined(SpansAt(spans, k, c)) == Joined(spans)[k * size + c..]
  {
    hide Joined;
    var rest := Joined(spans[k + 1..]);
    BlockStart(spans, size, k);
    assert spans == spans[..k] + ([spans[k]] + spans[k + 1..]);
    JoinedConcat(spans[..k], [spans[k]] + spans[k + 1..]);
    JoinedTwo(spans[k], spans[k + 1..]);
    JoinedTwo(spans[k][c..], spans[k + 1..]);
    Dropped(Joined(spans[..k]), spans[k], rest, c);
  }

  lemma Dropped(a: Data, b: Data, rest: Data, c: nat)
    requires c <= |b|
    ensures (a + (b + rest))[|a| + c..] == b[c..] + rest
  {}

  lemma Position(offset: nat, size: nat, n: nat)
    requires size >= 1
    ensures offset / size < n ==> offset < n * size
    ensures offset / size == n ==> offset == n * size + offset % size
    ensures offset / size > n ==> offset >= n * size + size
    ensures offset % size < size
  {
    var k := offset / size;
    assert offset == k * size + offset % size;
    if k < n {
      TimesMonotone(k + 1, n, size);
    } else if k > n {
      TimesMonotone(n + 1, k, size);
    }
  }

  lemma TimesMonotone(a: nat, b: nat, size: nat)
    requires 1 <= a <= b
    ensures a * size <= b * size && a * size == (a - 1) * size + size
  {}

  // Reads are defined before the end, and at the end unless the last block is full.
  lemma ReadableExactly(spans: seq<Data>, size: nat, offset: nat)
    requires Chunked(spans, size)
    ensures InBlocks(spans, size, offset)
        <==> offset < |Joined(spans)| || (offset == |Joined(spans)| && |spans[|spans| - 1]| < size)
  {
    var n := |spans| - 1;
    BlockStart(spans, size, n);
    Position(offset, size, n);
    assert |Joined(spans)| == n * size + |spans[n]|;
  }

  /* ---------------------------------------------------------------- the file */

  lemma {:induction false} LastExtended(spans: seq<Data>, piece: Data)
    requires spans != []
    ensures Joined(spans[|spans| - 1 := spans[|spans| - 1] + piece]) == Joined(spans) + piece
  {
    var n := |spans| - 1;
    assert spans[n := spans[n] + piece][..n] == spans[..n];
  }

  function Min(a: nat, b: nat): nat {
    if a < b then a else b
  }

  lemma {:induction false} JoinedPrefix(spans: seq<Data>, k: nat)
    requires k < |spans|
    ensures Joined(spans[..k + 1]) == Joined(spans[..k]) + spans[k]
    ensures |Joined(spans[..k + 1])| <= |Joined(spans)|
    ensures Joined(spans)[..|Joined(spans[..k + 1])|] == Joined(spans[..k + 1])
  {
    assert spans[..k + 1] == spans[..k] + [spans[k]];
    JoinedSnoc(spans[..k], spans[k]);
    assert spans == spans[..k + 1] + spans[k + 1..];
    JoinedConcat(spans[..k + 1], spans[k + 1..]);
  }

  lemma NothingRead(spans: seq<Data>)
    ensures Joined(spans[..0]) == []
  {}

  // One more span copied behind what was read.
  lemma ReadStep(spans: seq<Data>, k: nat, room: nat, n: nat)
    requires k < |spans| && n == Min(room, |Joined(spans[..k])|)
    ensures var m := n + Min(room - n, |spans[k]|);
            && n <= m <= |Joined(spans)| && Joined(spans)[..n] + spans[k][..m - n] == Joined(spans)[..m]
            && m == Min(room, |Joined(spans[..k + 1])|)
  {
    hide Joined;
    JoinedPrefix(spans, k);
    var front, all := Joined(spans[..k]), Joined(spans);
    if |front| <= room {
      var m := n + Min(room - n, |spans[k]|);
      assert all[..|front| + |spans[k]|] == front + spans[k];
      assert all[..m] == (front + spans[k])[..m];
    }
  }

  // append_to_dest: as much of the source as there is room for, behind what was read.
  method AppendToDest(dest: array<Byte>, at: nat, src: Data) returns (n: nat)
    requires at <= dest.Length
    modifies dest
    ensures n == Min(dest.Length - at, |src|) && dest[..] == old(dest[..])[..at] + src[..n] + old(dest[..])[at + n..]
  {
    n := Min(dest.Length - at, |src|);
    Buffers.Copy(dest, at, src[..n]);
  }

  // The first n bytes of the one, behind them those of the other.
  function Overlaid(whole: Data, base: Data, n: nat): Data
    requires n <= |whole| && n <= |base|
  {
    whole[..n] + base[n..]
  }

  lemma OverlaidNext(whole: Data, base: Data, n: nat, piece: Data)
    requires n + |piece| <= |base| && n + |piece| <= |whole| && whole[..n] + piece == whole[..n + |piece|]
    ensures var was := Overlaid(whole, base, n);
            |was| == |base| && was[..n] + piece + was[n + |piece|..] == Overlaid(whole, base, n + |piece|)
  {}

  lemma OverlaidNone(whole: Data, base: Data)
    ensures Overlaid(whole, base, 0) == base
  {}

  // The reading loop: stops when nothing more was copied.
  method CopySpans(spans: seq<Data>, dest: array<Byte>) returns (n: nat)
    requires forall i | 0 <= i < |spans| - 1 :: spans[i] != []
    modifies dest
    ensures n == Min(dest.Length, |Joined(spans)|) && dest[..] == Overlaid(Joined(spans), old(dest[..]), n)
  {
    hide Joined, Overlaid;
    n := 0;
    ghost var base, whole := dest[..], Joined(spans);
    NothingRead(spans);
    AllSpans(spans);
    OverlaidNone(whole, base);
    for k := 0 to |spans|
      invariant n == Min(dest.Length, |Joined(spans[..k])|) && n <= |whole| && dest[..] == Overlaid(whole, base, n)
    {
      ReadStep(spans, k, dest.Length, n);
      var readed := AppendToDest(dest, n, spans[k]);
      OverlaidNext(whole, base, n, spans[k][..readed]);
      n := n + readed;
      if readed == 0 {
        LastRead(spans, k, dest.Length, n);
        break;
      }
    }
  }

  lemma AllSpans(spans: seq<Data>)
    ensures Joined(spans[..|spans|]) == Joined(spans)
  {
    assert spans[..|spans|] == spans;
  }

  // A span adds nothing only when there is no room left, or at the end.
  lemma LastRead(spans: seq<Data>, k: nat, room: nat, n: nat)
    requires k < |spans| && (forall i | 0 <= i < |spans| - 1 :: spans[i] != [])
    requires n == Min(room, |Joined(spans[..k])|) == Min(room, |Joined(spans[..k + 1])|)
    requires Min(room - n, |spans[k]|) == 0
    ensures n == Min(room, |Joined(spans)|)
  {
    hide Joined;
    JoinedPrefix(spans, k);
    AllSpans(spans);
  }

  class InMemRw {
    var blocks: seq<Data>   // the valid spans; every block has room for blockSize bytes
    var blockSize: nat
    var cursor: nat

    ghost predicate Valid()
      reads this
    {
      Chunked(blocks, blockSize)
    }

    // The one byte string the blocks stand for.
    ghost function Content(): Data
      reads this
    {
      Joined(blocks)
    }

    constructor (size: nat)
      requires size >= 1
      ensures Valid() && blockSize == size && cursor == 0 && Content() == []
    {
      blocks, blockSize, cursor := [[]], size, 0;
      new;
      JoinedOne([]);
    }

    // Makes sure that the last block has room.
    method NextWritableBuffer()
      requires Valid()
      modifies this`blocks
      ensures Valid() && Content() == old(Content()) && |blocks[|blocks| - 1]| < blockSize
    {
      if |blocks[|blocks| - 1]| == blockSize {
        JoinedSnoc(blocks, []);
        blocks := blocks + [[]];
      }
    }

    method Commit(written: Data)
      requires Valid() && |written| <= blockSize - |blocks[|blocks| - 1]|
      modifies this`blocks
      ensures Valid() && Content() == old(Content()) + written
    {
      LastExtended(blocks, written);
      blocks := blocks[|blocks| - 1 := blocks[|blocks| - 1] + written];
    }

    // As much of the source as the last block, or a new one, has room for.
    method AppendPiece(src: Data) returns (appended: nat)
      requires Valid()
      modifies this`blocks
      ensures Valid() && appended <= |src| && (src != [] ==> appended > 0)
      ensures Content() == old(Content()) + src[..appended]
    {
      hide Joined;
      NextWritableBuffer();
      appended := Min(blockSize - |blocks[|blocks| - 1]|, |src|);
      Commit(src[..appended]);
    }

    method Append(src: Data) returns (n: nat)
      requires Valid()
      modifies this`blocks
      ensures Valid() && n == |src| && Content() == old(Content()) + src
    {
      hide InMemRw.Content, InMemRw.Valid;
      n := AppendPiece(src);
      while n < |src|
        invariant Valid() && n <= |src| && Content() == old(Content()) + src[..n]
      {
        var appended := AppendPiece(src[n..]);
        assert src[..n] + src[n..][..appended] == src[..n + appended];
        n := n + appended;
      }
    }

    // The spans a read of this size runs through, from the block of the offset on.
    method TargetSpans(offset: nat, size: nat) returns (spans: seq<Data>)
      requires Valid() && InBlocks(blocks, blockSize, offset)
      ensures spans != [] && forall i | 0 <= i < |spans| - 1 :: spans[i] != []
      ensures offset <= |Content()| && Joined(spans) <= Content()[offset..]
      ensures |Joined(spans)| >= size || Joined(spans) == Content()[offset..]
      ensures |spans| > 1 ==> |Joined(spans[..|spans| - 1])| < size
    {
      hide Joined;
      var idx, first := offset / blockSize, offset % blockSize;
      ghost var all := SpansAt(blocks, idx, first);
      Position(offset, blockSize, idx);
      SpansFrom(blocks, blockSize, idx, first);
      spans := [blocks[idx][first..]];
      JoinedOne(spans[0]);
      idx := idx + 1;
      var selected := |spans[0]|;
      while selected < size && idx < |blocks|
        invariant 0 < |spans| <= |all| && spans == all[..|spans|] && idx == offset / blockSize + |spans|
        invariant selected == |Joined(spans)| && (|spans| > 1 ==> |Joined(spans[..|spans| - 1])| < size)
      {
        JoinedSnoc(spans, blocks[idx]);
        assert (spans + [blocks[idx]])[..|spans|] == spans;
        spans := spans + [blocks[idx]];
        selected := selected + |blocks[idx]|;
        idx := idx + 1;
      }
      JoinedPrefix(all, |spans| - 1);
      if idx == |blocks| { assert spans == all; }
    }

    // The bytes from the offset on, as many as there are and fit.
    method Read(dest: array<Byte>, offset: nat) returns (n: nat)
      requires Valid() && InBlocks(blocks, blockSize, offset)
      modifies dest
      ensures offset <= |Content()| && n == Min(dest.Length, |Content()| - offset)
      ensures dest[..] == Content()[offset..offset + n] + old(dest[n..])
    {
      hide Joined;
      var spans := TargetSpans(offset, dest.Length);
      n := CopySpans(spans, dest);
      assert Joined(spans)[..n] == Content()[offset..][..n];
    }

    // Reads where the last read stopped.
    method ReadNext(dest: array<Byte>) returns (n: nat)
      requires Valid() && InBlocks(blocks, blockSize, cursor)
      modifies dest, this`cursor
      ensures old(cursor) <= |Content()| && n == |Piece(Content(), old(cursor), dest.Length)|
      ensures cursor == old(cursor) + n <= |Content()|
      ensures dest[..] == Piece(Content(), old(cursor), dest.Length) + old(dest[n..])
    {
      n := Read(dest, cursor);
      cursor := cursor + n;
    }

    method FileSize() returns (size: nat)
      ensures size == |Content()|
    {
      size := 0;
      for k := 0 to |blocks|
        invariant size == |Joined(blocks[..k])|
      {
        JoinedPrefix(blocks, k);
        size := size + |blocks[k]|;
      }
      assert blocks[..|blocks|] == blocks;
    }

    // Appends everything, block by block, to another file. An append that writes nothing would end
    // the dump; in memory a block that is not empty never does.
    method DumpTo(file: InMemRw) returns (wrote: nat)
      requires Valid() && file.Valid() && file != this
      modifies file`blocks
      ensures file.Valid() && wrote == |Content()| && file.Content() == old(file.Content()) + Content()
    {
      hide Joined;
      wrote := 0;
      NothingRead(blocks);
      for k := 0 to |blocks|
        invariant file.Valid() && wrote == |Joined(blocks[..k])|
        invariant file.Content() == old(file.Content()) + Joined(blocks[..k])
      {
        JoinedPrefix(blocks, k);
        if blocks[k] != [] {
          var n := file.Append(blocks[k]);
          wrote := wrote + n;
        }
      }
      assert blocks[..|blocks|] == blocks;
    }
  }

  /* ------------------------------------------------------- reading in sequence */

  function Piece<T>(content: seq<T>, offset: nat, room: nat): seq<T>
    requires offset <= |content|
  {
    content[offset..offset + Min(room, |content| - offset)]
  }

  // What reads of these sizes return one after the other.
  function Pieces<T>(content: seq<T>, offset: nat, rooms: seq<nat>): seq<seq<T>>
    requires offset <= |content|
    decreases |rooms|
  {
    if rooms == [] then []
    else [Piece(content, offset, rooms[0])] + Pieces(content, offset + |Piece(content, offset, rooms[0])|, rooms[1..])
  }

  function Total(rooms: seq<nat>): nat {
    if rooms == [] then 0 else rooms[0] + Total(rooms[1..])
  }

  // Consecutive reads tile the content without gap or overlap, whatever their sizes.
  lemma {:induction false} ReadsTile(content: Data, offset: nat, rooms: seq<nat>)
    requires offset <= |content|
    ensures Joined(Pieces(content, offset, rooms)) == Piece(content, offset, Total(rooms))
    decreases |rooms|
  {
    hide Joined;
    if rooms == [] {
      NothingRead([]);
      assert [][..0] == Pieces(content, offset, rooms);
    } else {
      var first := Piece(content, offset, rooms[0]);
      ReadsTile(content, offset + |first|, rooms[1..]);
      JoinedTwo(first, Pieces(content, offset + |first|, rooms[1..]));
    }
  }
}
