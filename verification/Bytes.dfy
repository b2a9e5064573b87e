/** Bytes, the big-endian fields the file formats are made of, and the memcmp ordering
    of util/comp.cc with its reference definition. */
module Bytes {

  type Byte = x: int | 0 <= x < 0x100
  type Data = seq<Byte>
  type Word = x: int | 0 <= x < 0x1_0000_0000

  datatype Option<+T> = None | Some(value: T)

  /* ---------------------------------------------------------------- fields */

  function Be16(n: nat): (s: Data)
    requires n < 0x1_0000
    ensures |s| == 2
  {
    [n / 0x100, n % 0x100]
  }

  function Be32(n: nat): (s: Data)
    requires n < 0x1_0000_0000
    ensures |s| == 4
  {
    Be16(n / 0x1_0000) + Be16(n % 0x1_0000)
  }

  function Be64(n: nat): (s: Data)
    requires n < 0x1_0000_0000_0000_0000
    ensures |s| == 8
  {
    Be32(n / 0x1_0000_0000) + Be32(n % 0x1_0000_0000)
  }

  function U16(mem: Data, at: nat): (n: nat)
    requires at + 2 <= |mem|
    ensures n < 0x1_0000
  {
    (mem[at] as int) * 0x100 + mem[at + 1]
  }

  function U32(mem: Data, at: nat): (n: nat)
    requires at + 4 <= |mem|
    ensures n < 0x1_0000_0000
  {
    U16(mem, at) * 0x1_0000 + U16(mem, at + 2)
  }

  function U64(mem: Data, at: nat): (n: nat)
    requires at + 8 <= |mem|
    ensures n < 0x1_0000_0000_0000_0000
  {
    U32(mem, at) * 0x1_0000_0000 + U32(mem, at + 4)
  }

  // The bytes `piece` are stored in `mem` from offset `at` on.
  predicate At(mem: Data, at: nat, piece: Data) {
    at + |piece| <= |mem| && mem[at..at + |piece|] == piece
  }

  // At most n bytes from offset `at`: a span that may run past the end of what is stored.
  function Cut(mem: Data, at: nat, n: nat): (s: Data)
  {
    if |mem| <= at then [] else if |mem| < at + n then mem[at..] else mem[at..at + n]
  }

  lemma AtSplit(mem: Data, at: nat, a: Data, b: Data)
    ensures At(mem, at, a + b) <==> At(mem, at, a) && At(mem, at + |a|, b)
  {
    if at + |a| + |b| <= |mem| {
      var whole := mem[at..at + |a| + |b|];
      assert whole == mem[at..at + |a|] + mem[at + |a|..at + |a| + |b|];
      assert whole[..|a|] == mem[at..at + |a|] && whole[|a|..] == mem[at + |a|..at + |a| + |b|];
      assert (a + b)[..|a|] == a && (a + b)[|a|..] == b;
    }
  }

  lemma ReadU16(mem: Data, at: nat, n: nat)
    requires n < 0x1_0000 && At(mem, at, Be16(n))
    ensures U16(mem, at) == n
  {
    var s := mem[at..at + 2];
    assert s[0] == mem[at] && s[1] == mem[at + 1];
  }

  lemma ReadU32(mem: Data, at: nat, n: nat)
    requires n < 0x1_0000_0000 && At(mem, at, Be32(n))
    ensures U32(mem, at) == n
  {
    AtSplit(mem, at, Be16(n / 0x1_0000), Be16(n % 0x1_0000));
    ReadU16(mem, at, n / 0x1_0000);
    ReadU16(mem, at + 2, n % 0x1_0000);
  }

  lemma ReadU64(mem: Data, at: nat, n: nat)
    requires n < 0x1_0000_0000_0000_0000 && At(mem, at, Be64(n))
    ensures U64(mem, at) == n
  {
    AtSplit(mem, at, Be32(n / 0x1_0000_0000), Be32(n % 0x1_0000_0000));
    ReadU32(mem, at, n / 0x1_0000_0000);
    ReadU32(mem, at + 4, n % 0x1_0000_0000);
  }

  // A four byte field is zero exactly when its four bytes are.
  predicate ZeroAt(mem: Data, at: nat)
    requires at + 4 <= |mem|
  {
    mem[at] == 0 && mem[at + 1] == 0 && mem[at + 2] == 0 && mem[at + 3] == 0
  }

  lemma ZeroField(mem: Data, at: nat)
    requires at + 4 <= |mem|
    ensures ZeroAt(mem, at) <==> U32(mem, at) == 0
  {}

  /* ------------------------------------------------------------- orderings */

  datatype Ordering = Less | Equal | Greater

  // Dictionary order on byte strings: the reference the comparators are proved against.
  predicate LexLess(a: Data, b: Data) {
    b != [] && (a == [] || a[0] < b[0] || (a[0] == b[0] && LexLess(a[1..], b[1..])))
  }

  // memcmp over two spans of one length.
  function MemCmp(a: Data, b: Data): Ordering
    requires |a| == |b|
  {
    if a == [] then Equal
    else if a[0] < b[0] then Less
    else if a[0] > b[0] then Greater
    else MemCmp(a[1..], b[1..])
  }

  function CompareNat(a: nat, b: nat): Ordering {
    if a < b then Less else if a > b then Greater else Equal
  }

  // memcmp_comparator: memcmp over the common length, ties decided by the length.
  function Compare(lhs: Data, rhs: Data): Ordering {
    var n := if |lhs| < |rhs| then |lhs| else |rhs|;
    if n == 0 then CompareNat(|lhs|, |rhs|)
    else
      match MemCmp(lhs[..n], rhs[..n])
      case Equal => if |lhs| == |rhs| then Equal else if |lhs| > |rhs| then Greater else Less
      case indicator => indicator
  }

  lemma {:induction false} LexTotal(a: Data, b: Data)
    ensures a == b || LexLess(a, b) || LexLess(b, a)
    ensures !(LexLess(a, b) && LexLess(b, a))
    ensures a == b ==> !LexLess(a, b)
  {
    if a != [] && b != [] && a[0] == b[0] {
      LexTotal(a[1..], b[1..]);
      if a[1..] == b[1..] {
        assert a == [a[0]] + a[1..] && b == [b[0]] + b[1..];
      }
    }
  }

  lemma {:induction false} LexTransitive(a: Data, b: Data, c: Data)
    requires LexLess(a, b) && LexLess(b, c)
    ensures LexLess(a, c)
  {
    if a != [] && a[0] == b[0] && b[0] == c[0] {
      LexTransitive(a[1..], b[1..], c[1..]);
    }
  }

  lemma {:induction false} LexSamePrefix(p: Data, a: Data, b: Data)
    ensures LexLess(p + a, p + b) <==> LexLess(a, b)
  {
    if p == [] {
      assert p + a == a && p + b == b;
    } else {
      assert (p + a)[1..] == p[1..] + a && (p + b)[1..] == p[1..] + b;
      LexSamePrefix(p[1..], a, b);
    }
  }

  // Once two heads of one length differ, the heads alone decide.
  lemma {:induction false} LexHeadDecides(p: Data, q: Data, a: Data, b: Data)
    requires |p| == |q| && p != q
    ensures LexLess(p + a, q + b) <==> LexLess(p, q)
  {
    assert (p + a)[0] == p[0] && (q + b)[0] == q[0];
    if p[0] == q[0] {
      assert p == [p[0]] + p[1..] && q == [q[0]] + q[1..];
      assert (p + a)[1..] == p[1..] + a && (q + b)[1..] == q[1..] + b;
      LexHeadDecides(p[1..], q[1..], a, b);
    }
  }

  lemma {:induction false} MemCmpIsLex(a: Data, b: Data)
    requires |a| == |b|
    ensures MemCmp(a, b) == (if a == b then Equal else if LexLess(a, b) then Less else Greater)
  {
    if a != [] {
      assert a == [a[0]] + a[1..] && b == [b[0]] + b[1..];
      if a[0] == b[0] {
        MemCmpIsLex(a[1..], b[1..]);
      }
    }
  }

  lemma LexExtends(p: Data, a: Data)
    requires a != []
    ensures LexLess(p, p + a) && !LexLess(p + a, p)
  {
    assert p + [] == p;
    LexSamePrefix(p, [], a);
    LexTotal(p, p + a);
  }

  // memcmp_comparator is dictionary order, for spans of any two lengths.
  lemma CompareIsLexicographic(lhs: Data, rhs: Data)
    ensures Compare(lhs, rhs) == (if lhs == rhs then Equal else if LexLess(lhs, rhs) then Less else Greater)
  {
    var n := if |lhs| < |rhs| then |lhs| else |rhs|;
    var p, q := lhs[..n], rhs[..n];
    assert lhs == p + lhs[n..] && rhs == q + rhs[n..];
    MemCmpIsLex(p, q);
    if p != q {
      LexHeadDecides(p, q, lhs[n..], rhs[n..]);
    } else if |lhs| < |rhs| {
      assert p == lhs;
      LexExtends(lhs, rhs[n..]);
    } else if |rhs| < |lhs| {
      assert q == rhs;
      LexExtends(rhs, lhs[n..]);
    }
  }

  lemma Be16Order(m: nat, n: nat)
    requires m < 0x1_0000 && n < 0x1_0000
    ensures LexLess(Be16(m), Be16(n)) <==> m < n
    ensures Be16(m) == Be16(n) <==> m == n
  {
    var a, b := Be16(m), Be16(n);
    assert a[1..] == [m % 0x100] && b[1..] == [n % 0x100];
    assert LexLess(a[1..], b[1..]) <==> m % 0x100 < n % 0x100;
    assert a[0] == m / 0x100 && b[0] == n / 0x100;
  }

  lemma Be32Order(m: nat, n: nat)
    requires m < 0x1_0000_0000 && n < 0x1_0000_0000
    ensures LexLess(Be32(m), Be32(n)) <==> m < n
    ensures Be32(m) == Be32(n) <==> m == n
  {
    var hm, hn, lm, ln := m / 0x1_0000, n / 0x1_0000, m % 0x1_0000, n % 0x1_0000;
    Be16Order(hm, hn);
    Be16Order(lm, ln);
    if hm == hn {
      LexSamePrefix(Be16(hm), Be16(lm), Be16(ln));
    } else {
      LexHeadDecides(Be16(hm), Be16(hn), Be16(lm), Be16(ln));
      assert Be32(m)[..2] == Be16(hm) && Be32(n)[..2] == Be16(hn);
    }
  }
}
