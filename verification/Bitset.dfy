/** The code generator for the bitset that records which required fields have been
    read: generator/fastgo/bitset.go.  Code is written line by line; `Exec` says what
    the written lines do. */
module Bitset {

  // ----- words -----

  function Pow2(k: nat): (p: nat)
    ensures p > 0
  {
    if k == 0 then 1 else 2 * Pow2(k - 1)
  }

  /** Bit `k` of `x`. */
  predicate Bit(x: nat, k: nat) {
    if k == 0 then x % 2 == 1 else Bit(x / 2, k - 1)
  }

  /** The operators & and | of the generated code. */
  function And(x: nat, y: nat): nat {
    if x == 0 then 0 else (x % 2) * (y % 2) + 2 * And(x / 2, y / 2)
  }

  function Or(x: nat, y: nat): nat
    decreases x + y
  {
    if x == 0 && y == 0 then 0 else (if x % 2 + y % 2 > 0 then 1 else 0) + 2 * Or(x / 2, y / 2)
  }

  lemma {:induction false} BitOfPow2(k: nat, i: nat)
    ensures Bit(Pow2(k), i) <==> i == k
    decreases i
  {
    if i == 0 {
    } else if k == 0 {
      BitOfZero(i - 1);
    } else {
      assert Pow2(k) / 2 == Pow2(k - 1);
      BitOfPow2(k - 1, i - 1);
    }
  }

  lemma {:induction false} BitOfZero(i: nat)
    ensures !Bit(0, i)
  {
    if i > 0 {
      BitOfZero(i - 1);
    }
  }

  lemma {:induction false} BitOfOr(x: nat, y: nat, i: nat)
    ensures Bit(Or(x, y), i) <==> Bit(x, i) || Bit(y, i)
    decreases i
  {
    if i == 0 {
      assert Pow2(0) == 1;
    } else {
      if x == 0 && y == 0 {
        BitOfZero(i);
      } else {
        assert Or(x, y) / 2 == Or(x / 2, y / 2);
        BitOfOr(x / 2, y / 2, i - 1);
      }
    }
  }

  /** Masking with a single bit tests it. */
  lemma {:induction false} AndPow2(x: nat, k: nat)
    ensures And(x, Pow2(k)) == 0 <==> !Bit(x, k)
    decreases k
  {
    if x == 0 {
      BitOfZero(k);
    } else if k == 0 {
      assert And(x / 2, 0) == 0 by { AndZero(x / 2); }
    } else {
      assert Pow2(k) / 2 == Pow2(k - 1) && Pow2(k) % 2 == 0;
      AndPow2(x / 2, k - 1);
    }
  }

  lemma {:induction false} AndZero(x: nat)
    ensures And(x, 0) == 0
  {
    if x != 0 {
      AndZero(x / 2);
    }
  }

  predicate AllSet(x: nat, n: nat) {
    forall i :: 0 <= i < n ==> Bit(x, i)
  }

  ghost predicate NoneFrom(x: nat, n: nat) {
    forall i :: 0 <= i && Bit(x, i) ==> i < n
  }

  lemma HalfWord(x: nat, n: nat)
    requires n > 0
    ensures NoneFrom(x, n) ==> NoneFrom(x / 2, n - 1)
    ensures AllSet(x, n) <==> x % 2 == 1 && AllSet(x / 2, n - 1)
  {
    assert forall i :: 0 <= i ==> Bit(x, i + 1) == Bit(x / 2, i);
    assert Bit(x, 0) <==> x % 2 == 1;
    forall i | 1 <= i ensures Bit(x, i) == Bit(x / 2, i - 1) {
    }
  }

  /** A word whose bits all lie below `n` equals 2^n - 1 if and only if all of them are set. */
  lemma {:induction false} FullWord(x: nat, n: nat)
    requires NoneFrom(x, n)
    ensures x == Pow2(n) - 1 <==> AllSet(x, n)
    decreases n
  {
    if n == 0 {
      NoBits(x);
    } else {
      HalfWord(x, n);
      FullWord(x / 2, n - 1);
      assert Pow2(n) == 2 * Pow2(n - 1);
    }
  }

  lemma {:induction false} NoBits(x: nat)
    requires forall i :: 0 <= i ==> !Bit(x, i)
    ensures x == 0
    decreases x
  {
    if x > 0 {
      assert !Bit(x, 0);
      forall i | 0 <= i ensures !Bit(x / 2, i) {
        assert Bit(x, i + 1) == Bit(x / 2, i);
      }
      NoBits(x / 2);
    }
  }

  /** Adding the next bit to a run of ones. */
  lemma {:induction false} OrNextBit(k: nat)
    ensures Or(Pow2(k) - 1, Pow2(k)) == Pow2(k + 1) - 1
  {
    if k > 0 {
      assert Pow2(k) == 2 * Pow2(k - 1);
      assert (Pow2(k) - 1) / 2 == Pow2(k - 1) - 1 && Pow2(k) / 2 == Pow2(k - 1);
      OrNextBit(k - 1);
    } else {
      assert Or(0, 1) == 1 + 2 * Or(0, 0);
    }
  }

  lemma {:induction false} Pow2Monotone(i: nat, j: nat)
    requires i < j
    ensures Pow2(i) < Pow2(j)
    decreases j
  {
    if i < j - 1 {
      Pow2Monotone(i, j - 1);
    }
  }

  // ----- the written code -----

  datatype Ref = Whole | At(index: nat)

  /** The lines that the generator writes.  `Call(v)` stands for what the callback writes
      for `v`; it leaves the generated function. */
  datatype Line<V> =
    | DeclWord(typename: string)                  // var x uint8
    | DeclArray(length: nat, typename: string)    // var x [3]uint8
    | OrInto(ref: Ref, mask: nat)
    | IfNot(ref: Ref, value: nat)    // if ref != value {
    | IfClear(ref: Ref, mask: nat)   // if ref & mask == 0 {
    | Close                          // }
    | Call(v: V)

  /** The number of values of a Go type, 0 for what is not an unsigned type. */
  function Values(typename: string): nat {
    if typename == "byte" || typename == "uint8" then 0x100
    else if typename == "uint16" then 0x1_0000
    else if typename == "uint32" then 0x1_0000_0000
    else if typename == "uint64" then 0x1_0000_0000_0000_0000
    else 0
  }

  /** A declared variable holds numbers below `limit`. */
  datatype Memory = Undeclared | Word(limit: nat, x: nat) | Words(limit: nat, xs: seq<nat>)

  datatype Outcome<V> = Done(mem: Memory, skip: nat) | Reached(v: V) | Crash

  predicate Readable(mem: Memory, r: Ref) {
    match r
    case Whole => mem.Word?
    case At(q) => mem.Words? && q < |mem.xs|
  }

  function Load(mem: Memory, r: Ref): nat
    requires Readable(mem, r)
  {
    match r
    case Whole => mem.x
    case At(q) => mem.xs[q]
  }

  function Store(mem: Memory, r: Ref, x: nat): Memory
    requires Readable(mem, r)
  {
    match r
    case Whole => Word(mem.limit, x)
    case At(q) => Words(mem.limit, mem.xs[q := x])
  }

  /** The constant is one of the type that the variable is declared with; the Go compiler
      refuses any other. */
  predicate Usable(mem: Memory, r: Ref, constant: nat) {
    Readable(mem, r) && constant < mem.limit
  }

  /** Runs lines one after the other; a constant that does not fit the declared type or an index
      outside the declared variable is a crash.  `skip` counts the blocks that have been entered
      since a condition failed; nothing is done until it is back to 0. */
  function Exec<V>(lines: seq<Line<V>>, mem: Memory, skip: nat): Outcome<V> {
    if lines == [] then Done(mem, skip)
    else
      var rest := lines[1..];
      if skip > 0 then
        match lines[0]
        case IfNot(_, _) => Exec(rest, mem, skip + 1)
        case IfClear(_, _) => Exec(rest, mem, skip + 1)
        case Close => Exec(rest, mem, skip - 1)
        case _ => Exec(rest, mem, skip)
      else
        match lines[0]
        case DeclWord(typename) => Exec(rest, Word(Values(typename), 0), 0)
        case DeclArray(n, typename) => Exec(rest, Words(Values(typename), seq(n, _ => 0)), 0)
        case OrInto(r, mask) => if Usable(mem, r, mask) then Exec(rest, Store(mem, r, Or(Load(mem, r), mask)), 0) else Crash
        case IfNot(r, x) => if Usable(mem, r, x) then Exec(rest, mem, if Load(mem, r) != x then 0 else 1) else Crash
        case IfClear(r, mask) =>
          if Usable(mem, r, mask) then Exec(rest, mem, if And(Load(mem, r), mask) == 0 then 0 else 1) else Crash
        case Close => Exec(rest, mem, 0)
        case Call(v) => Reached(v)
  }

  function Then<V>(o: Outcome<V>, more: seq<Line<V>>): Outcome<V> {
    match o
    case Done(mem, skip) => Exec(more, mem, skip)
    case _ => o
  }

  lemma {:induction false} ExecAppend<V>(a: seq<Line<V>>, b: seq<Line<V>>, mem: Memory, skip: nat)
    ensures Exec(a + b, mem, skip) == Then(Exec(a, mem, skip), b)
    decreases |a|
  {
    if a == [] {
      assert a + b == b;
    } else {
      assert (a + b)[0] == a[0] && (a + b)[1..] == a[1..] + b;
      forall mem': Memory, skip': nat
        ensures Exec(a[1..] + b, mem', skip') == Then(Exec(a[1..], mem', skip'), b)
      {
        ExecAppend(a[1..], b, mem', skip');
      }
    }
  }

  // ----- layout -----

  predicate Width(w: nat) {
    w == 8 || w == 16 || w == 32 || w == 64
  }

  function RefOf(n: nat, w: nat, k: nat): Ref
    requires Width(w)
  {
    if n <= w then Whole else At(k / w)
  }

  /** The bits of a Go type name, as the generator knows them; it panics on any other name. */
  function VarBits(typename: string): nat {
    if typename == "byte" || typename == "uint8" then 8
    else if typename == "uint16" then 16
    else if typename == "uint32" then 32
    else if typename == "uint64" then 64
    else 0
  }

  /** The generator counts the bits of the type right. */
  lemma BitsOfType(typename: string)
    ensures VarBits(typename) > 0 <==> Values(typename) > 0
    ensures VarBits(typename) > 0 ==> Width(VarBits(typename)) && Values(typename) == Pow2(VarBits(typename))
  {
    Pow2Values();
  }

  lemma Pow2Values()
    ensures Pow2(8) == 0x100 && Pow2(16) == 0x1_0000 && Pow2(32) == 0x1_0000_0000 && Pow2(64) == 0x1_0000_0000_0000_0000
  {
    assert Pow2(4) == 16 by { assert Pow2(2) == 4; }
    Pow2Sum(4, 4);
    Pow2Sum(8, 8);
    Pow2Sum(16, 16);
    Pow2Sum(32, 32);
  }

  lemma {:induction false} Pow2Sum(i: nat, j: nat)
    ensures Pow2(i + j) == Pow2(i) * Pow2(j)
  {
    if i > 0 {
      Pow2Sum(i - 1, j);
      assert 2 * (Pow2(i - 1) * Pow2(j)) == 2 * Pow2(i - 1) * Pow2(j);
    }
  }

  function DeclCode<V>(typename: string, n: nat, w: nat): seq<Line<V>>
    requires Width(w)
  {
    if n == 0 then [] else if n <= w then [DeclWord(typename)] else [DeclArray((n + w - 1) / w, typename)]
  }

  function SetCode<V>(n: nat, w: nat, k: nat): seq<Line<V>>
    requires Width(w)
  {
    [OrInto(RefOf(n, w, k), Pow2(k % w))]
  }

  /** The variable has the declared shape and holds words of `w` bits, and only bits that stand for one of the `n`
      values can be set. */
  ghost predicate Shaped(mem: Memory, n: nat, w: nat)
    requires Width(w)
  {
    if n <= w then mem.Word? && mem.limit == Pow2(w) && (forall r: nat :: Bit(mem.x, r) ==> r < n)
    else mem.Words? && mem.limit == Pow2(w) && |mem.xs| == (n + w - 1) / w
         && (forall q, r: nat :: 0 <= q < |mem.xs| && Bit(mem.xs[q], r) ==> r < w && q * w + r < n)
  }

  /** Value `k` is recorded. */
  predicate Has(mem: Memory, n: nat, w: nat, k: nat)
    requires Width(w)
  {
    Readable(mem, RefOf(n, w, k)) && Bit(Load(mem, RefOf(n, w, k)), k % w)
  }

  lemma WordIndex(n: nat, w: nat, k: nat)
    requires Width(w) && k < n
    ensures k / w < (n + w - 1) / w
    ensures (k / w) * w + k % w == k && k % w < w
    ensures n <= w ==> k % w == k
  {
    if w == 8 {
    } else if w == 16 {
    } else if w == 32 {
    }
  }

  /** Every index lies inside the declared variable, every mask fits the declared type, and
      different values have different (word, bit) places. */
  lemma LayoutIsSound(n: nat, w: nat, k: nat, j: nat, mem: Memory)
    requires Width(w) && k < n && j < n && Shaped(mem, n, w)
    ensures Readable(mem, RefOf(n, w, k)) && Usable(mem, RefOf(n, w, k), Pow2(k % w))
    ensures RefOf(n, w, k) == RefOf(n, w, j) && k % w == j % w ==> k == j
  {
    hide Pow2, Bit;
    WordIndex(n, w, k);
    WordIndex(n, w, j);
    Pow2Monotone(k % w, w);
  }

  lemma DeclaredIsShaped<V>(typename: string, n: nat, w: nat, mem: Memory)
    requires Width(w) && Values(typename) == Pow2(w) && n > 0
    ensures var o := Exec<V>(DeclCode(typename, n, w), mem, 0);
            o.Done? && o.skip == 0 && Shaped(o.mem, n, w) && forall k: nat :: k < n ==> !Has(o.mem, n, w, k)
  {
    hide Values, Pow2, Bit;
    forall r: nat ensures !Bit(0, r) {
      BitOfZero(r);
    }
    DeclRuns<V>(typename, n, w, mem);
  }

  lemma DeclRuns<V>(typename: string, n: nat, w: nat, mem: Memory)
    requires Width(w) && n > 0
    ensures Exec<V>(DeclCode(typename, n, w), mem, 0)
            == Done(if n <= w then Word(Values(typename), 0) else Words(Values(typename), seq((n + w - 1) / w, _ => 0)), 0)
  {
    hide Values;
    if n <= w {
      assert DeclCode<V>(typename, n, w)[1..] == [];
    } else {
      assert DeclCode<V>(typename, n, w)[1..] == [];
    }
  }

  /** Setting the bit of one value records that value and changes nothing about the others. */
  lemma SetRecordsOne<V>(n: nat, w: nat, mem: Memory, k: nat)
    requires Width(w) && k < n && Shaped(mem, n, w)
    ensures var o := Exec<V>(SetCode(n, w, k), mem, 0);
            o.Done? && o.skip == 0 && Shaped(o.mem, n, w)
            && forall j: nat :: j < n ==> (Has(o.mem, n, w, j) <==> Has(mem, n, w, j) || j == k)
  {
    var r := RefOf(n, w, k);
    LayoutIsSound(n, w, k, k, mem);
    var x := Load(mem, r);
    var y := Or(x, Pow2(k % w));
    assert Exec<V>(SetCode(n, w, k), mem, 0) == Done(Store(mem, r, y), 0);
    forall i: nat ensures Bit(y, i) <==> Bit(x, i) || i == k % w {
      BitOfOr(x, Pow2(k % w), i);
      BitOfPow2(k % w, i);
    }
    hide Bit, Or, Pow2;
    StillShaped(n, w, mem, k, y);
    forall j: nat | j < n ensures Has(Store(mem, r, y), n, w, j) <==> Has(mem, n, w, j) || j == k {
      LayoutIsSound(n, w, k, j, mem);
      LayoutIsSound(n, w, j, j, mem);
    }
  }

  lemma StillShaped(n: nat, w: nat, mem: Memory, k: nat, y: nat)
    requires Width(w) && k < n && Shaped(mem, n, w) && Readable(mem, RefOf(n, w, k))
    requires forall i: nat :: Bit(y, i) <==> Bit(Load(mem, RefOf(n, w, k)), i) || i == k % w
    ensures Shaped(Store(mem, RefOf(n, w, k), y), n, w)
  {
    hide Bit;
    WordIndex(n, w, k);
  }
}
