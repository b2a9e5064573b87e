/** A buffer of fixed capacity (include/frenzykv/io/inner_buffer.h). */
module Buffers {
  import opened Bytes

  class Buffer {
    const storage: array<Byte>
    var left: nat

    ghost predicate Valid()
      reads this
    {
      left <= storage.Length
    }

    function Size(): nat
      requires Valid()
      reads this
    {
      storage.Length - left
    }

    // valid_span
    function Span(): Data
      requires Valid()
      reads this, storage
    {
      storage[..Size()]
    }

    constructor (capacity: nat)
      ensures Valid() && fresh(storage) && storage.Length == capacity == left
    {
      storage := new Byte[capacity](_ => 0);
      left := capacity;
    }

    // Appends all of it or, when it does not fit, nothing.
    method Append(src: Data) returns (ok: bool)
      requires Valid()
      modifies this`left, storage
      ensures Valid() && ok == (|src| <= old(left))
      ensures Span() == if ok then old(Span()) + src else old(Span())
    {
      ok := |src| <= left;
      if ok {
        Copy(storage, Size(), src);
        Commit(|src|);
      }
    }

    // What was written to the writable span becomes valid.
    method Commit(n: nat)
      requires Valid() && n <= left
      modifies this`left
      ensures Valid() && left == old(left) - n
      ensures Span() == old(Span()) + old(storage[Size()..Size() + n])
    {
      left := left - n;
      assert storage[..Size()] == storage[..old(Size())] + storage[old(Size())..old(Size()) + n];
    }

    method Truncate()
      requires Valid()
      modifies this`left
      ensures Valid() && left == storage.Length && Span() == []
    {
      left := storage.Length;
    }
  }

  method Copy(dest: array<Byte>, at: nat, src: Data)
    requires at + |src| <= dest.Length
    modifies dest
    ensures dest[..] == old(dest[..at]) + src + old(dest[at + |src|..])
  {
    for i := 0 to |src|
      invariant dest[..] == old(dest[..at]) + src[..i] + old(dest[at + i..])
    {
      dest[at + i] := src[i];
    }
  }
}
