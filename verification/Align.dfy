/** Struct padding and the reordering of struct fields: generator/golang/align.go. */
module Align {
  import opened Wrappers

  /** The categories that a resolved field type has. */
  datatype Category =
    | Bool | Byte | I16 | I32 | I64 | Double | String | Binary | Set | List | Map | Enum
    | Struct | Union | Exception

  /** Four or eight bytes, depending on the machine. */
  predicate IsPointerSize(p: nat) {
    p == 4 || p == 8
  }

  function SizeOf(c: Category, p: nat): nat
    requires IsPointerSize(p)
  {
    match c
    case Bool => 1
    case Byte => 1
    case I16 => 2
    case I32 => 4
    case I64 => 8
    case Double => 8
    case String => p * 2
    case Binary => p * 3
    case Set => p * 3
    case List => p * 3
    case Map => p
    case Enum => 8
    case Struct => p
    case Union => p
    case Exception => p
  }

  class Field {
    const category: Category
    const optional: bool
    const hasDefault: bool

    constructor (category: Category, optional: bool, hasDefault: bool)
      ensures this.category == category && this.optional == optional && this.hasDefault == hasDefault
    {
      this.category, this.optional, this.hasDefault := category, optional, hasDefault;
    }

    /** Whether the field is held behind a pointer. */
    predicate Redirected() {
      if category.Struct? || category.Union? || category.Exception? then true
      else if optional && !hasDefault then
        !category.Binary? && !category.Set? && !category.List? && !category.Map?
      else false
    }

    function Size(p: nat): nat
      requires IsPointerSize(p)
    {
      if Redirected() then p else SizeOf(category, p)
    }
  }

  class StructLike {
    var fields: seq<Field>

    constructor (fields: seq<Field>)
      ensures this.fields == fields
    {
      this.fields := fields;
    }
  }

  // ----- padding -----

  predicate Sizable(size: nat, p: nat) {
    IsPointerSize(p) && (size == 1 || size == 2 || size == 4 || (size > 0 && size % p == 0))
  }

  predicate AllSizable(sizes: seq<nat>, p: nat) {
    IsPointerSize(p) && forall i :: 0 <= i < |sizes| ==> Sizable(sizes[i], p)
  }

  function Unit(size: nat, p: nat): nat {
    if size >= p then p else size
  }

  function Max(a: nat, b: nat): nat {
    if a >= b then a else b
  }

  function RoundUp(n: nat, unit: nat): nat
    requires unit > 0
  {
    (n + unit - 1) / unit * unit
  }

  /** What `align` holds after some fields. */
  datatype Layout = Layout(unit: nat, size: nat)

  function With(l: Layout, size: nat, p: nat): Layout
    requires Sizable(size, p)
  {
    var unit := Max(l.unit, Unit(size, p));
    var pad := RoundUp(l.size, unit);
    Layout(unit, (if pad - l.size < size then pad else l.size) + size)
  }

  function Lay(sizes: seq<nat>, p: nat): Layout
    requires AllSizable(sizes, p)
  {
    if sizes == [] then Layout(0, 0) else With(Lay(sizes[..|sizes| - 1], p), sizes[|sizes| - 1], p)
  }

  function Sum(sizes: seq<nat>): nat {
    if sizes == [] then 0 else Sum(sizes[..|sizes| - 1]) + sizes[|sizes| - 1]
  }

  function Widest(sizes: seq<nat>, p: nat): nat {
    if sizes == [] then 0 else Max(Widest(sizes[..|sizes| - 1], p), Unit(sizes[|sizes| - 1], p))
  }

  /** Where the last field ends when every field starts at the next multiple of its own
      unit, which is how Go lays out a struct. */
  function GoEnd(sizes: seq<nat>, p: nat): nat
    requires AllSizable(sizes, p)
  {
    if sizes == [] then 0
    else RoundUp(GoEnd(sizes[..|sizes| - 1], p), Unit(sizes[|sizes| - 1], p)) + sizes[|sizes| - 1]
  }

  predicate Descending(sizes: seq<nat>) {
    forall i, j :: 0 <= i < j < |sizes| ==> sizes[i] >= sizes[j]
  }

  predicate IsUnit(u: nat, p: nat) {
    IsPointerSize(p) && (u == 1 || u == 2 || u == 4 || u == p)
  }

  lemma RoundUpFacts(n: nat, u: nat, p: nat)
    requires IsUnit(u, p)
    ensures n <= RoundUp(n, u) < n + u && RoundUp(n, u) % u == 0
    ensures n % u == 0 ==> RoundUp(n, u) == n
  {
    var q, r := n / u, n % u;
    if u == 1 {
      assert RoundUp(n, 1) == n;
    } else if u == 2 {
      assert RoundUp(n, 2) == (n + 1) / 2 * 2;
    } else if u == 4 {
      assert n == 4 * q + r;
      assert (n + 3) / 4 == if r == 0 then q else q + 1;
    } else {
      assert u == 8 && n == 8 * q + r;
      assert (n + 7) / 8 == if r == 0 then q else q + 1;
    }
  }

  lemma RoundUpMonotone(m: nat, n: nat, u: nat, p: nat)
    requires IsUnit(u, p) && m <= n
    ensures RoundUp(m, u) <= RoundUp(n, u)
  {
    if u == 1 {} else if u == 2 {} else if u == 4 {} else if u == 8 {}
  }

  lemma {:induction false} WidestIsUnit(sizes: seq<nat>, p: nat)
    requires AllSizable(sizes, p) && sizes != []
    ensures IsUnit(Widest(sizes, p), p)
    ensures forall i :: 0 <= i < |sizes| ==> Unit(sizes[i], p) <= Widest(sizes, p)
    ensures exists i :: 0 <= i < |sizes| && Unit(sizes[i], p) == Widest(sizes, p)
  {
    var n := |sizes| - 1;
    var most := sizes[..n];
    if most != [] {
      WidestIsUnit(most, p);
      var j :| 0 <= j < n && Unit(most[j], p) == Widest(most, p);
      assert sizes[j] == most[j];
      forall i | 0 <= i < n ensures Unit(sizes[i], p) <= Widest(sizes, p) {
        assert sizes[i] == most[i];
      }
    }
    assert Unit(sizes[n], p) <= Widest(sizes, p);
  }

  /** Whatever the order, the size is at least the sum, in both layouts, and the unit is the
      widest one. */
  lemma {:induction false} LayIsAtLeastSum(sizes: seq<nat>, p: nat)
    requires AllSizable(sizes, p)
    ensures Lay(sizes, p).size >= Sum(sizes) && GoEnd(sizes, p) >= Sum(sizes)
    ensures Lay(sizes, p).unit == Widest(sizes, p)
  {
    hide RoundUp, Unit, IsUnit;
    if sizes != [] {
      var n := |sizes| - 1;
      LayIsAtLeastSum(sizes[..n], p);
      WidestIsUnit(sizes, p);
      RoundUpFacts(Lay(sizes[..n], p).size, Widest(sizes, p), p);
      UnitIsUnit(sizes[n], p);
      RoundUpFacts(GoEnd(sizes[..n], p), Unit(sizes[n], p), p);
      LayLast(sizes, p);
    }
  }

  lemma UnitIsUnit(size: nat, p: nat)
    requires Sizable(size, p)
    ensures IsUnit(Unit(size, p), p)
  {
  }

  lemma LayLast(sizes: seq<nat>, p: nat)
    requires AllSizable(sizes, p) && sizes != [] && Widest(sizes, p) > 0
    requires Lay(sizes[..|sizes| - 1], p).unit == Widest(sizes[..|sizes| - 1], p)
    ensures var l, size := Lay(sizes[..|sizes| - 1], p), sizes[|sizes| - 1];
            var pad := RoundUp(l.size, Widest(sizes, p));
            Lay(sizes, p) == Layout(Widest(sizes, p), (if pad - l.size < size then pad else l.size) + size)
  {
    hide RoundUp;
  }

  lemma Divides(a: nat, b: nat, p: nat)
    requires Sizable(a, p) && Sizable(b, p) && a >= b
    ensures a % Unit(b, p) == 0
  {
    if p == 4 {
      if b == 1 {} else if b == 2 {} else {}
    } else {
      if b == 1 {} else if b == 2 {} else if b == 4 {} else {}
    }
  }

  lemma {:induction false} SumOfMultiples(sizes: seq<nat>, b: nat, p: nat)
    requires AllSizable(sizes, p) && Sizable(b, p) && forall i :: 0 <= i < |sizes| ==> sizes[i] >= b
    ensures Sum(sizes) % Unit(b, p) == 0
  {
    hide Unit;
    UnitIsUnit(b, p);
    if sizes != [] {
      var n := |sizes| - 1;
      SumOfMultiples(sizes[..n], b, p);
      Divides(sizes[n], b, p);
      AddMultiples(Sum(sizes[..n]), sizes[n], Unit(b, p), p);
    }
  }

  lemma AddMultiples(m: nat, n: nat, u: nat, p: nat)
    requires IsUnit(u, p) && m % u == 0 && n % u == 0
    ensures (m + n) % u == 0
  {
    if u == 1 {} else if u == 2 {} else if u == 4 {} else if u == 8 {}
  }

  /** A gap before the widest unit that is a multiple of the field is not filled. */
  lemma NoGap(sum: nat, size: nat, wide: nat, p: nat)
    requires Sizable(size, p) && IsUnit(wide, p) && Unit(size, p) <= wide && sum % Unit(size, p) == 0
    ensures var pad := RoundUp(sum, wide); if pad - sum < size then pad == sum else true
    ensures RoundUp(sum, Unit(size, p)) == sum
  {
    RoundUpFacts(sum, Unit(size, p), p);
    RoundUpFacts(sum, wide, p);
  }

  /** In descending order no field is padded, in either layout. */
  lemma {:induction false} DescendingIsDense(sizes: seq<nat>, p: nat)
    requires AllSizable(sizes, p) && Descending(sizes)
    ensures Lay(sizes, p).size == Sum(sizes) && GoEnd(sizes, p) == Sum(sizes)
  {
    if sizes != [] {
      var n := |sizes| - 1;
      var most := sizes[..n];
      DescendingIsDense(most, p);
      LayIsAtLeastSum(most, p);
      SumOfMultiples(most, sizes[n], p);
      WidestIsUnit(sizes, p);
      NoGap(Sum(most), sizes[n], Widest(sizes, p), p);
    }
  }

  // ----- what a permutation keeps -----

  lemma {:induction false} Without(sizes: seq<nat>, j: nat, p: nat)
    requires j < |sizes|
    ensures var rest := sizes[..j] + sizes[j + 1..];
            && Sum(sizes) == Sum(rest) + sizes[j]
            && Widest(sizes, p) == Max(Widest(rest, p), Unit(sizes[j], p))
    decreases |sizes|
  {
    var n := |sizes| - 1;
    var rest := sizes[..j] + sizes[j + 1..];
    if j == n {
      assert rest == sizes[..n];
    } else {
      Without(sizes[..n], j, p);
      assert rest[..n - 1] == sizes[..n][..j] + sizes[..n][j + 1..];
    }
  }

  /** Where a permutation has the last element, and that the others are a permutation. */
  lemma LastOf<T>(a: seq<T>, b: seq<T>) returns (j: nat)
    requires multiset(a) == multiset(b) && a != []
    ensures j < |b| == |a| && b[j] == a[|a| - 1]
    ensures multiset(a[..|a| - 1]) == multiset(b[..j] + b[j + 1..])
  {
    var x := a[|a| - 1];
    assert a == a[..|a| - 1] + [x];
    assert |multiset(a)| == |a| && |multiset(b)| == |b|;
    assert x in multiset(b);
    j :| 0 <= j < |b| && b[j] == x;
    assert b == b[..j] + [x] + b[j + 1..];
    assert multiset(b) == multiset(b[..j]) + multiset([x]) + multiset(b[j + 1..]);
    assert multiset(a) == multiset(a[..|a| - 1]) + multiset([x]);
    assert multiset(a[..|a| - 1]) == multiset(a) - multiset([x]);
    assert multiset(b[..j] + b[j + 1..]) == multiset(b[..j]) + multiset(b[j + 1..]) == multiset(b) - multiset([x]);
  }

  lemma {:induction false} PermutationKeeps(a: seq<nat>, b: seq<nat>, p: nat)
    requires multiset(a) == multiset(b)
    ensures Sum(a) == Sum(b) && Widest(a, p) == Widest(b, p) && |a| == |b|
    decreases |a|
  {
    assert |multiset(a)| == |a| && |multiset(b)| == |b|;
    if a == [] {
      assert b == [];
    } else {
      var j := LastOf(a, b);
      PermutationKeeps(a[..|a| - 1], b[..j] + b[j + 1..], p);
      Without(b, j, p);
    }
  }

  lemma PermutedSizable(a: seq<nat>, b: seq<nat>, p: nat)
    requires multiset(a) == multiset(b) && AllSizable(a, p)
    ensures AllSizable(b, p)
  {
    forall i | 0 <= i < |b| ensures Sizable(b[i], p) {
      assert b[i] in multiset(a);
    }
  }

  /** The size of a struct, padded at the end. */
  function Padded(l: Layout): nat
    requires l.unit > 0
  {
    RoundUp(l.size, l.unit)
  }

  /** The descending order takes the sum of the sizes rounded up to the widest unit, which
      is what Go gives it as well, and no other order takes less. */
  lemma DescendingIsOptimal(sizes: seq<nat>, sorted: seq<nat>, p: nat)
    requires AllSizable(sizes, p) && sizes != [] && multiset(sizes) == multiset(sorted) && Descending(sorted)
    ensures AllSizable(sorted, p) && Widest(sizes, p) > 0
    ensures Widest(sorted, p) == Lay(sorted, p).unit == Lay(sizes, p).unit == Widest(sizes, p)
    ensures Padded(Lay(sorted, p)) == RoundUp(Sum(sizes), Widest(sizes, p)) == RoundUp(GoEnd(sorted, p), Widest(sizes, p))
    ensures Padded(Lay(sorted, p)) <= Padded(Lay(sizes, p))
    ensures Padded(Lay(sorted, p)) <= RoundUp(GoEnd(sizes, p), Widest(sizes, p))
  {
    PermutedSizable(sizes, sorted, p);
    PermutationKeeps(sizes, sorted, p);
    DescendingIsDense(sorted, p);
    LayIsAtLeastSum(sizes, p);
    LayIsAtLeastSum(sorted, p);
    WidestIsUnit(sizes, p);
    RoundUpMonotone(Sum(sizes), Lay(sizes, p).size, Widest(sizes, p), p);
    RoundUpMonotone(Sum(sizes), GoEnd(sizes, p), Widest(sizes, p), p);
  }

  // ----- the program -----

  class Align {
    var unit: nat
    var size: nat

    constructor ()
      ensures unit == 0 && size == 0
    {
      unit, size := 0, 0;
    }

    function Value(): Layout
      reads this
    {
      Layout(unit, size)
    }

    method Add(size: nat, p: nat)
      requires Sizable(size, p)
      modifies this
      ensures Value() == With(old(Value()), size, p)
    {
      var u := size;
      if u >= p {
        u := p;
      }
      if u > unit {
        unit := u;
      }
      var pad := PaddedSize();
      if pad - this.size < size {
        this.size := pad;
      }
      this.size := this.size + size;
    }

    method PaddedSize() returns (n: nat)
      requires unit > 0
      ensures n == Padded(Value())
    {
      n := (size + unit - 1) / unit * unit;
    }
  }

  datatype SizeDiff = SizeDiff(original: nat, arranged: nat)

  function Sizes(fs: seq<Field>, p: nat): (r: seq<nat>)
    requires IsPointerSize(p)
    ensures |r| == |fs| && forall i :: 0 <= i < |r| ==> r[i] == fs[i].Size(p)
    ensures AllSizable(r, p)
  {
    if fs == [] then [] else Sizes(fs[..|fs| - 1], p) + [fs[|fs| - 1].Size(p)]
  }

  lemma {:induction false} SizesPermute(a: seq<Field>, b: seq<Field>, p: nat)
    requires IsPointerSize(p) && multiset(a) == multiset(b)
    ensures multiset(Sizes(a, p)) == multiset(Sizes(b, p))
    decreases |a|
  {
    if a == [] {
      assert |multiset(b)| == |b|;
    } else {
      var j := LastOf(a, b);
      SizesPermute(a[..|a| - 1], b[..j] + b[j + 1..], p);
      SizesWithout(b, j, p);
      var s := Sizes(b, p);
      Moved(Sizes(a[..|a| - 1], p), s[j], s[..j], s[j + 1..]);
    }
  }

  lemma SizesWithout(b: seq<Field>, j: nat, p: nat)
    requires j < |b| && IsPointerSize(p)
    ensures var s := Sizes(b, p);
            Sizes(b[..j] + b[j + 1..], p) == s[..j] + s[j + 1..] && s == s[..j] + [s[j]] + s[j + 1..]
  {
    hide Sizable, IsPointerSize;
    var rest := b[..j] + b[j + 1..];
    var s, r := Sizes(b, p), Sizes(rest, p);
    forall i | 0 <= i < |r| ensures r[i] == (s[..j] + s[j + 1..])[i] {
      assert rest[i] == if i < j then b[i] else b[i + 1];
    }
  }

  lemma Moved(most: seq<nat>, x: nat, left: seq<nat>, right: seq<nat>)
    requires multiset(most) == multiset(left + right)
    ensures multiset(most + [x]) == multiset(left + [x] + right)
  {
    assert multiset(left + right) == multiset(left) + multiset(right);
    assert multiset(left + [x] + right) == multiset(left) + multiset([x]) + multiset(right);
  }

  lemma MeasureStep(fs: seq<Field>, i: nat, p: nat)
    requires i < |fs| && IsPointerSize(p)
    ensures Sizable(fs[i].Size(p), p)
    ensures Lay(Sizes(fs[..i + 1], p), p) == With(Lay(Sizes(fs[..i], p), p), fs[i].Size(p), p)
  {
    hide With;
    var some := Sizes(fs[..i + 1], p);
    assert fs[..i + 1][..i] == fs[..i];
    assert some == Sizes(fs[..i], p) + [fs[i].Size(p)];
    assert some[..i] == Sizes(fs[..i], p);
  }

  /** Lays the fields out one after another. */
  method Measure(fs: seq<Field>, p: nat) returns (a: Align)
    requires IsPointerSize(p)
    ensures fresh(a) && a.Value() == Lay(Sizes(fs, p), p)
  {
    a := new Align();
    hide With, Unit, RoundUp, Max;
    assert fs[..0] == [];
    for i := 0 to |fs|
      invariant fresh(a) && a.Value() == Lay(Sizes(fs[..i], p), p)
    {
      MeasureStep(fs, i, p);
      a.Add(fs[i].Size(p), p);
    }
    assert fs[..|fs|] == fs;
  }

  /** Puts the fields into the order `fs`, which sorting by descending size has produced, when
      that changes the size.  The fields are the same ones, the struct never grows, and no
      order of them, in either layout, takes less than the size that is reported. */
  method ReorderFields(s: StructLike, p: nat, fs: seq<Field>) returns (diff: Option<SizeDiff>)
    requires IsPointerSize(p)
    requires multiset(fs) == multiset(s.fields) && Descending(Sizes(fs, p))
    modifies s
    ensures diff.None? <==> old(s.fields) == []
    ensures multiset(s.fields) == multiset(old(s.fields))
    ensures s.fields == if diff.Some? && diff.value.original != diff.value.arranged then fs else old(s.fields)
    ensures diff.Some? ==>
              var before, after := Sizes(old(s.fields), p), Sizes(s.fields, p);
              var wide := Widest(before, p);
              && Lay(before, p).unit == Lay(after, p).unit == wide > 0
              && diff.value.original == Padded(Lay(before, p))
              && diff.value.arranged == Padded(Lay(after, p)) == RoundUp(Sum(before), wide)
              && diff.value.arranged <= diff.value.original
              && diff.value.arranged <= RoundUp(GoEnd(before, p), wide)
  {
    if |s.fields| == 0 {
      return None;
    }
    SizesPermute(s.fields, fs, p);
    DescendingIsOptimal(Sizes(s.fields, p), Sizes(fs, p), p);
    var a1 := Measure(s.fields, p);
    var a2 := Measure(fs, p);
    var original := a1.PaddedSize();
    var arranged := a2.PaddedSize();
    if original != arranged {
      s.fields := fs;
    }
    diff := Some(SizeDiff(original, arranged));
  }
}
