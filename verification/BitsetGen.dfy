/** The generator itself, and what the code it writes does when it is run. */
module BitsetGen {
  import opened Bitset

  // ----- the checks -----

  /** One unguarded check for each of the values `i..j`. */
  function Tests<V>(order: seq<V>, w: nat, i: nat, j: nat): seq<Line<V>>
    requires Width(w) && j <= |order|
    decreases j - i
  {
    if i >= j then []
    else [IfClear(RefOf(|order|, w, i), Pow2(i % w)), Call(order[i]), Close] + Tests(order, w, i + 1, j)
  }

  /** The checks `i..j`, skipped as a whole when the word equals `full`. */
  function Guarded<V>(order: seq<V>, w: nat, i: nat, j: nat, full: nat): seq<Line<V>>
    requires Width(w) && j <= |order|
  {
    [IfNot(RefOf(|order|, w, i), full)] + Tests(order, w, i, j) + [Close]
  }

  /** The checks of the values from `i`, a multiple of the width, on. */
  function Checks<V>(order: seq<V>, w: nat, i: nat): seq<Line<V>>
    requires Width(w)
    decreases |order| - i
  {
    var n := |order|;
    if i + w < n then Guarded(order, w, i, i + w, Pow2(w) - 1) + Checks(order, w, i + w)
    else if i >= n then []
    else if n % w > w / 2 then Guarded(order, w, i, n, Pow2(n % w) - 1)
    else Tests(order, w, i, n)
  }

  function CheckCode<V>(order: seq<V>, w: nat): seq<Line<V>>
    requires Width(w)
  {
    var n := |order|;
    if n == 0 then []
    else if n > w then Checks(order, w, 0)
    else if n > w / 2 then Guarded(order, w, 0, n, Pow2(n) - 1)
    else Tests(order, w, 0, n)
  }

  // ----- what the checks do -----

  /** The lowest-numbered value of `i..j` that is not recorded. */
  function FirstMissing(mem: Memory, n: nat, w: nat, i: nat, j: nat): (k: nat)
    requires Width(w) && i <= j
    ensures i <= k <= j
    ensures k < j ==> !Has(mem, n, w, k)
    ensures forall l :: i <= l < k ==> Has(mem, n, w, l)
    decreases j - i
  {
    if i == j || !Has(mem, n, w, i) then i else FirstMissing(mem, n, w, i + 1, j)
  }

  function Verdict<V>(order: seq<V>, mem: Memory, w: nat, i: nat, j: nat): Outcome<V>
    requires Width(w) && i <= j <= |order|
  {
    var k := FirstMissing(mem, |order|, w, i, j);
    if k < j then Reached(order[k]) else Done(mem, 0)
  }

  lemma {:induction false} SkippedTests<V>(order: seq<V>, w: nat, i: nat, j: nat, mem: Memory, skip: nat)
    requires Width(w) && j <= |order| && skip > 0
    ensures Exec(Tests(order, w, i, j), mem, skip) == Done(mem, skip)
    decreases j - i
  {
    if i < j {
      var a: Line<V>, b: Line<V> := IfClear(RefOf(|order|, w, i), Pow2(i % w)), Call(order[i]);
      var rest := Tests(order, w, i + 1, j);
      SkippedTests(order, w, i + 1, j, mem, skip);
      OneTest(a, b, rest, mem, skip);
    }
  }

  /** Three lines at once. */
  lemma OneTest<V>(a: Line<V>, b: Line<V>, rest: seq<Line<V>>, mem: Memory, skip: nat)
    requires a.IfClear? && b.Call?
    ensures skip > 0 ==> Exec([a, b, Close] + rest, mem, skip) == Exec(rest, mem, skip)
    ensures skip == 0 && Usable(mem, a.ref, a.mask) ==>
              Exec([a, b, Close] + rest, mem, skip)
              == if And(Load(mem, a.ref), a.mask) == 0 then Reached(b.v) else Exec(rest, mem, 0)
  {
    var code := [a, b, Close] + rest;
    assert code[0] == a && code[1..][0] == b && code[1..][1..][0] == Close && code[1..][1..][1..] == rest;
    assert code[1..] == [b, Close] + rest && code[1..][1..] == [Close] + rest;
    if skip > 0 {
      assert Exec(code, mem, skip) == Exec(code[1..], mem, skip + 1);
      assert Exec(code[1..], mem, skip + 1) == Exec(code[1..][1..], mem, skip + 1);
      assert Exec(code[1..][1..], mem, skip + 1) == Exec(rest, mem, skip);
    } else if Usable(mem, a.ref, a.mask) {
      if And(Load(mem, a.ref), a.mask) == 0 {
        assert Exec(code, mem, 0) == Exec(code[1..], mem, 0);
      } else {
        assert Exec(code, mem, 0) == Exec(code[1..], mem, 1);
        assert Exec(code[1..], mem, 1) == Exec(code[1..][1..], mem, 1);
        assert Exec(code[1..][1..], mem, 1) == Exec(rest, mem, 0);
      }
    }
  }

  lemma {:induction false} RunTests<V>(order: seq<V>, w: nat, i: nat, j: nat, mem: Memory)
    requires Width(w) && i <= j <= |order| && Shaped(mem, |order|, w)
    ensures Exec(Tests(order, w, i, j), mem, 0) == Verdict(order, mem, w, i, j)
    decreases j - i
  {
    if i < j {
      var n := |order|;
      hide Exec, Shaped, Pow2, Bit, And;
      LayoutIsSound(n, w, i, i, mem);
      AndPow2(Load(mem, RefOf(n, w, i)), i % w);
      OneTest(IfClear(RefOf(n, w, i), Pow2(i % w)), Call(order[i]), Tests(order, w, i + 1, j), mem, 0);
      RunTests(order, w, i + 1, j, mem);
    } else {
      assert Tests(order, w, i, j) == [];
    }
  }

  lemma RunClose<V>(mem: Memory, skip: nat)
    ensures Exec([Line<V>.Close], mem, skip) == Done(mem, if skip > 0 then skip - 1 else 0)
  {
    var code: seq<Line<V>> := [Close];
    assert code[0] == Close && code[1..] == [];
  }

  /** A guard whose value is reached only when nothing is missing behind it. */
  lemma RunGuarded<V>(order: seq<V>, w: nat, i: nat, j: nat, full: nat, mem: Memory)
    requires Width(w) && i < j <= |order| && Shaped(mem, |order|, w)
    requires Usable(mem, RefOf(|order|, w, i), full)
    requires Load(mem, RefOf(|order|, w, i)) == full ==> FirstMissing(mem, |order|, w, i, j) == j
    ensures Exec(Guarded(order, w, i, j, full), mem, 0) == Verdict(order, mem, w, i, j)
  {
    var n := |order|;
    var guard: seq<Line<V>> := [IfNot(RefOf(n, w, i), full)];
    var tests := Tests(order, w, i, j);
    assert Exec(guard, mem, 0) == Done(mem, if Load(mem, RefOf(n, w, i)) != full then 0 else 1);
    RunClose<V>(mem, 0);
    RunClose<V>(mem, 1);
    RunTests(order, w, i, j, mem);
    SkippedTests(order, w, i, j, mem, 1);
    hide Exec, Tests;
    ExecAppend(guard, tests, mem, 0);
    ExecAppend(guard + tests, [Close], mem, 0);
  }

  /** A guard compares a word with the value it has when all its values are recorded. */
  lemma GuardIsExact<V>(order: seq<V>, w: nat, i: nat, j: nat, mem: Memory)
    requires Width(w) && Shaped(mem, |order|, w)
    requires i % w == 0 && i < j <= |order| && j <= i + w && (j == i + w || j == |order|)
    ensures Usable(mem, RefOf(|order|, w, i), Pow2(j - i) - 1)
    ensures Load(mem, RefOf(|order|, w, i)) == Pow2(j - i) - 1 <==> FirstMissing(mem, |order|, w, i, j) == j
  {
    var n := |order|;
    var r := RefOf(n, w, i);
    LayoutIsSound(n, w, i, i, mem);
    if j - i < w { Pow2Monotone(j - i, w); }
    var x := Load(mem, r);
    SameWord(n, w, i, j);
    assert NoneFrom(x, j - i) by { NoStrayBits(n, w, i, j, mem); }
    FullWord(x, j - i);
    hide Bit, Pow2, Shaped;
    AllRecorded(mem, n, w, i, j, x);
  }

  lemma AllRecorded(mem: Memory, n: nat, w: nat, i: nat, j: nat, x: nat)
    requires Width(w) && i < j
    requires forall k :: i <= k < j ==> RefOf(n, w, k) == RefOf(n, w, i) && k % w == k - i
    requires Readable(mem, RefOf(n, w, i)) && x == Load(mem, RefOf(n, w, i))
    ensures AllSet(x, j - i) <==> FirstMissing(mem, n, w, i, j) == j
  {
    hide Bit, RefOf;
    if AllSet(x, j - i) {
      forall k | i <= k < j ensures Has(mem, n, w, k) {
        assert Bit(x, k - i);
      }
    }
    if FirstMissing(mem, n, w, i, j) == j {
      forall b | 0 <= b < j - i ensures Bit(x, b) {
        assert Has(mem, n, w, i + b);
      }
    }
  }

  lemma NoStrayBits(n: nat, w: nat, i: nat, j: nat, mem: Memory)
    requires Width(w) && Shaped(mem, n, w) && Readable(mem, RefOf(n, w, i))
    requires i % w == 0 && i < j <= n && j <= i + w && (j == i + w || j == n)
    ensures NoneFrom(Load(mem, RefOf(n, w, i)), j - i)
  {
    hide Bit;
    WordIndex(n, w, i);
    if n <= w {
      assert i == 0;
    }
  }

  lemma SameWord(n: nat, w: nat, i: nat, j: nat)
    requires Width(w) && i % w == 0 && i < j <= n && j <= i + w
    ensures forall k :: i <= k < j ==> RefOf(n, w, k) == RefOf(n, w, i) && k % w == k - i
  {
    forall k | i <= k < j ensures k / w == i / w && k % w == k - i {
      if w == 8 {
      } else if w == 16 {
      } else if w == 32 {
      }
    }
  }

  lemma {:induction false} RunChecks<V>(order: seq<V>, w: nat, i: nat, mem: Memory)
    requires Width(w) && Shaped(mem, |order|, w) && i % w == 0 && i < |order|
    ensures Exec(Checks(order, w, i), mem, 0) == Verdict(order, mem, w, i, |order|)
    decreases |order| - i
  {
    hide Exec, Shaped, Guarded, Pow2, Bit, FirstMissing, RefOf, Readable, Load;
    var n := |order|;
    if i + w < n {
      NextWord(w, i);
      GuardIsExact(order, w, i, i + w, mem);
      RunGuarded(order, w, i, i + w, Pow2(w) - 1, mem);
      RunChecks(order, w, i + w, mem);
      ExecAppend(Guarded(order, w, i, i + w, Pow2(w) - 1), Checks(order, w, i + w), mem, 0);
      FirstMissingSplit(mem, n, w, i, i + w, n);
    } else if n % w > w / 2 {
      LastWord(n, w, i);
      GuardIsExact(order, w, i, n, mem);
      RunGuarded(order, w, i, n, Pow2(n % w) - 1, mem);
    } else {
      RunTests(order, w, i, n, mem);
    }
  }

  lemma NextWord(w: nat, i: nat)
    requires Width(w) && i % w == 0
    ensures (i + w) % w == 0
  {
    if w == 8 {
    } else if w == 16 {
    } else if w == 32 {
    }
  }

  lemma LastWord(n: nat, w: nat, i: nat)
    requires Width(w) && i % w == 0 && i < n <= i + w && n % w > 0
    ensures n - i == n % w
  {
    if w == 8 {
    } else if w == 16 {
    } else if w == 32 {
    }
  }

  lemma {:induction false} FirstMissingSplit(mem: Memory, n: nat, w: nat, i: nat, m: nat, j: nat)
    requires Width(w) && i <= m <= j
    ensures FirstMissing(mem, n, w, i, j) ==
            if FirstMissing(mem, n, w, i, m) < m then FirstMissing(mem, n, w, i, m) else FirstMissing(mem, n, w, m, j)
    decreases m - i
  {
    hide Has;
    if i < m && Has(mem, n, w, i) {
      FirstMissingSplit(mem, n, w, i + 1, m, j);
    }
  }

  /** The guards never change the outcome: the checks reach the callback of the
      lowest-numbered value that is not recorded, and fall through if there is none. */
  lemma ChecksFindFirstMissing<V>(order: seq<V>, w: nat, mem: Memory)
    requires Width(w) && |order| > 0 && Shaped(mem, |order|, w)
    ensures Exec(CheckCode(order, w), mem, 0) == Verdict(order, mem, w, 0, |order|)
  {
    hide Exec, Shaped, Guarded, Pow2, Bit;
    var n := |order|;
    if n > w {
      RunChecks(order, w, 0, mem);
    } else if n > w / 2 {
      GuardIsExact(order, w, 0, n, mem);
      RunGuarded(order, w, 0, n, Pow2(n) - 1, mem);
    } else {
      RunTests(order, w, 0, n, mem);
    }
  }

  // ----- whole programs -----

  /** The code that sets the bits of the values with the numbers `ks`, in that order. */
  function SetAll<V>(n: nat, w: nat, ks: seq<nat>): seq<Line<V>>
    requires Width(w)
  {
    if ks == [] then [] else SetCode(n, w, ks[0]) + SetAll(n, w, ks[1..])
  }

  lemma {:induction false} SetAllRecords<V>(n: nat, w: nat, ks: seq<nat>, mem: Memory)
    requires Width(w) && Shaped(mem, n, w) && forall i :: 0 <= i < |ks| ==> ks[i] < n
    ensures var o := Exec<V>(SetAll(n, w, ks), mem, 0);
            o.Done? && o.skip == 0 && Shaped(o.mem, n, w)
            && forall j: nat :: j < n ==> (Has(o.mem, n, w, j) <==> Has(mem, n, w, j) || j in ks)
    decreases ks
  {
    if ks == [] {
      assert Exec<V>(SetAll(n, w, ks), mem, 0) == Done(mem, 0);
    } else {
      SetRecordsOne<V>(n, w, mem, ks[0]);
      hide Exec, SetCode, Shaped, Has;
      var o := Exec<V>(SetCode(n, w, ks[0]), mem, 0);
      SetAllRecords<V>(n, w, ks[1..], o.mem);
      ExecAppend<V>(SetCode(n, w, ks[0]), SetAll(n, w, ks[1..]), mem, 0);
      assert ks == [ks[0]] + ks[1..];
    }
  }

  lemma CodeIsCorrect<V>(typename: string, order: seq<V>, w: nat, ks: seq<nat>)
    requires Width(w) && Values(typename) == Pow2(w)
    requires |order| > 0 && forall i :: 0 <= i < |ks| ==> ks[i] < |order|
    ensures var n := |order|;
            var o := Exec(DeclCode(typename, n, w) + SetAll(n, w, ks) + CheckCode(order, w), Undeclared, 0);
            if forall k: nat :: k < n ==> k in ks then o.Done?
            else exists k: nat :: k < n && k !in ks && o == Reached(order[k]) && forall l: nat :: l < k ==> l in ks
  {
    hide Exec, DeclCode, SetAll, CheckCode, Shaped, Has, Values, Pow2;
    var n := |order|;
    var decl, sets, checks := DeclCode<V>(typename, n, w), SetAll<V>(n, w, ks), CheckCode(order, w);
    DeclaredIsShaped<V>(typename, n, w, Undeclared);
    var o1 := Exec(decl, Undeclared, 0);
    SetAllRecords<V>(n, w, ks, o1.mem);
    var o2 := Exec(sets, o1.mem, 0);
    ChecksFindFirstMissing(order, w, o2.mem);
    ExecAppend(decl, sets, Undeclared, 0);
    ExecAppend(decl + sets, checks, Undeclared, 0);
    var k := FirstMissing(o2.mem, n, w, 0, n);
    if k < n {
      assert k !in ks && forall l: nat :: l < k ==> l in ks;
    }
  }

  /** The generated function, from the name of the type and the declaration on: after any run of
      set-bit code for the values numbered `ks`, the checks reach the callback of the
      lowest-numbered value that is not among them, and fall through if and only if all of them
      are.  No index lies outside the declared variable and no constant outside its type. */
  lemma GeneratedCodeIsCorrect<V>(typename: string, order: seq<V>, ks: seq<nat>)
    requires VarBits(typename) > 0 && |order| > 0 && forall i :: 0 <= i < |ks| ==> ks[i] < |order|
    ensures var n, w := |order|, VarBits(typename);
            Width(w) &&
            var o := Exec(DeclCode(typename, n, w) + SetAll(n, w, ks) + CheckCode(order, w), Undeclared, 0);
            if forall k: nat :: k < n ==> k in ks then o.Done?
            else exists k: nat :: k < n && k !in ks && o == Reached(order[k]) && forall l: nat :: l < k ==> l in ks
  {
    hide Exec, DeclCode, SetAll, CheckCode, VarBits, Values, Pow2;
    BitsOfType(typename);
    CodeIsCorrect(typename, order, VarBits(typename), ks);
  }
}
