/** The generator object, whose methods write code line by line. */
module BitsetCodeGen {
  import opened Bitset
  import opened BitsetGen

  class CodeWriter<V> {
    var lines: seq<Line<V>>

    constructor ()
      ensures lines == []
    {
      lines := [];
    }

    method Write(line: Line<V>)
      modifies this
      ensures lines == old(lines) + [line]
    {
      lines := lines + [line];
    }
  }

  /** The mask of value number `i` within its word. */
  function BitValue(w: nat, i: nat): (mask: nat)
    requires Width(w)
    ensures mask < Pow2(w)
    ensures forall k :: 0 <= k ==> (Bit(mask, k) <==> k == i % w)
  {
    Pow2Monotone(i % w, w);
    assert forall k :: 0 <= k ==> (Bit(Pow2(i % w), k) <==> k == i % w) by {
      forall k | 0 <= k ensures Bit(Pow2(i % w), k) <==> k == i % w {
        BitOfPow2(i % w, k);
      }
    }
    Pow2(i % w)
  }

  /** A word with its `n` low bits set. */
  method BitsValue(w: nat, n: nat) returns (mask: nat, panics: bool)
    requires Width(w)
    ensures panics <==> n > w
    ensures !panics ==> mask == Pow2(n) - 1 && mask < Pow2(w)
  {
    mask, panics := 0, n > w;
    if panics {
      return;
    }
    for i := 0 to n
      invariant mask == Pow2(i) - 1
    {
      OrNextBit(i);
      mask := Or(mask, Pow2(i));
    }
    if n < w {
      Pow2Monotone(n, w);
    }
  }

  class BitsetCodeGen<V(==)> {
    const typename: string
    const varbits: nat
    var i: nat
    var m: map<V, nat>
    ghost var order: seq<V>   // the added values in the order of their numbers

    ghost predicate Valid()
      reads this
    {
      && varbits == VarBits(typename) && Width(varbits)
      && i == |order| == |m|
      && (forall k :: 0 <= k < i ==> order[k] in m && m[order[k]] == k)
      && (forall v :: v in m ==> m[v] < i && order[m[v]] == v)
    }

    constructor (typename: string)
      requires VarBits(typename) > 0
      ensures Valid() && order == [] && this.typename == typename
    {
      BitsOfType(typename);
      this.typename, varbits, i, m, order := typename, VarBits(typename), 0, map[], [];
    }

    method Add(v: V) returns (panics: bool)
      requires Valid()
      modifies this
      ensures Valid()
      ensures panics <==> v in old(order)
      ensures order == if panics then old(order) else old(order) + [v]
    {
      if v in m {
        return true;
      }
      m := m[v := i];
      i := i + 1;
      order := order + [v];
      return false;
    }

    method GenVar(w: CodeWriter<V>)
      requires Valid()
      modifies w
      ensures w.lines == old(w.lines) + DeclCode(typename, |order|, varbits)
    {
      if i == 0 {
        return;
      }
      if i <= varbits {
        w.Write(DeclWord(typename));
        return;
      }
      w.Write(DeclArray((i + varbits - 1) / varbits, typename));
    }

    method GenSetbit(w: CodeWriter<V>, v: V) returns (panics: bool)
      requires Valid()
      modifies w
      ensures panics <==> v !in order
      ensures w.lines == if panics then old(w.lines) else old(w.lines) + SetCode(|order|, varbits, m[v])
      ensures !panics ==> v in m && m[v] < |order| && order[m[v]] == v
    {
      if v !in m {
        return true;
      }
      var k := m[v];
      if i <= varbits {
        w.Write(OrInto(Whole, BitValue(varbits, k)));
      } else {
        w.Write(OrInto(At(k / varbits), BitValue(varbits, k)));
      }
      return false;
    }

    /** The map from numbers back to values. */
    method Inverse() returns (inv: map<nat, V>)
      requires Valid()
      ensures forall k :: 0 <= k < i ==> k in inv && inv[k] == order[k]
    {
      inv := map[];
      var todo := m.Keys;
      while todo != {}
        invariant todo <= m.Keys
        invariant forall v :: v in m && v !in todo ==> m[v] in inv && inv[m[v]] == v
        decreases todo
      {
        var v :| v in todo;
        inv := inv[m[v] := v];
        todo := todo - {v};
      }
      forall k | 0 <= k < i ensures k in inv && inv[k] == order[k] {
        assert order[k] in m && m[order[k]] == k;
      }
    }

    /** The checks `from..to`, one block each. */
    method GenTests(w: CodeWriter<V>, inv: map<nat, V>, from: nat, to: nat)
      requires Valid() && from <= to <= i
      requires forall k :: 0 <= k < i ==> k in inv && inv[k] == order[k]
      modifies w
      ensures w.lines == old(w.lines) + Tests(order, varbits, from, to)
    {
      var k := from;
      assert w.lines + Tests(order, varbits, from, to) == old(w.lines) + Tests(order, varbits, from, to);
      while k < to
        invariant from <= k <= to
        invariant w.lines + Tests(order, varbits, k, to) == old(w.lines) + Tests(order, varbits, from, to)
      {
        ghost var before := w.lines;
        w.Write(IfClear(RefOf(i, varbits, k), BitValue(varbits, k)));
        w.Write(Call(inv[k]));
        w.Write(Close);
        TestsStep(order, varbits, k, to, before, w.lines);
        k := k + 1;
      }
    }

    /** The checks `from..to` behind a guard. */
    method GenGuarded(w: CodeWriter<V>, inv: map<nat, V>, from: nat, to: nat, full: nat)
      requires Valid() && from <= to <= i
      requires forall k :: 0 <= k < i ==> k in inv && inv[k] == order[k]
      modifies w
      ensures w.lines == old(w.lines) + Guarded(order, varbits, from, to, full)
    {
      hide Tests;
      w.Write(IfNot(RefOf(i, varbits, from), full));
      GenTests(w, inv, from, to);
      w.Write(Close);
    }

    method GenIfNotSet(w: CodeWriter<V>)
      requires Valid()
      modifies w
      ensures w.lines == old(w.lines) + CheckCode(order, varbits)
    {
      hide Tests, Checks, Guarded;
      if |m| == 0 {
        return;
      }
      var inv := Inverse();
      if i <= varbits {
        if i > varbits / 2 {
          var full, _ := BitsValue(varbits, i);
          GenGuarded(w, inv, 0, i, full);
          return;
        }
        GenTests(w, inv, 0, i);
        return;
      }
      GenWords(w, inv);
    }

    /** The case of several words. */
    method GenWords(w: CodeWriter<V>, inv: map<nat, V>)
      requires Valid() && i > varbits
      requires forall k :: 0 <= k < i ==> k in inv && inv[k] == order[k]
      modifies w
      ensures w.lines == old(w.lines) + Checks(order, varbits, 0)
    {
      hide Tests, Guarded, Checks, Pow2;
      var k := 0;
      var whole, _ := BitsValue(varbits, varbits);
      while k + varbits < i
        invariant k < i && k % varbits == 0
        invariant w.lines + Checks(order, varbits, k) == old(w.lines) + Checks(order, varbits, 0)
      {
        ghost var before := w.lines;
        GenGuarded(w, inv, k, k + varbits, whole);
        ChecksStep(order, varbits, k, before, w.lines);
        k := k + varbits;
      }
      LastChecks(order, varbits, k);
      if i % varbits > varbits / 2 {
        var full, _ := BitsValue(varbits, i % varbits);
        GenGuarded(w, inv, k, i, full);
      } else {
        GenTests(w, inv, k, i);
      }
    }
  }

  lemma TestsStep<V>(order: seq<V>, w: nat, k: nat, j: nat, before: seq<Line<V>>, after: seq<Line<V>>)
    requires Width(w) && k < j <= |order|
    requires after == before + [IfClear(RefOf(|order|, w, k), Pow2(k % w))] + [Call(order[k])] + [Close]
    ensures after + Tests(order, w, k + 1, j) == before + Tests(order, w, k, j)
  {
  }

  lemma ChecksStep<V>(order: seq<V>, w: nat, k: nat, before: seq<Line<V>>, after: seq<Line<V>>)
    requires Width(w) && k + w < |order| && k % w == 0
    requires after == before + Guarded(order, w, k, k + w, Pow2(w) - 1)
    ensures after + Checks(order, w, k + w) == before + Checks(order, w, k)
    ensures (k + w) % w == 0
  {
    hide Tests, Guarded, Pow2;
    NextWord(w, k);
    var rest := Checks(order, w, k + w);
    assert Checks(order, w, k) == Guarded(order, w, k, k + w, Pow2(w) - 1) + rest;
  }

  lemma LastChecks<V>(order: seq<V>, w: nat, k: nat)
    requires Width(w) && k < |order| <= k + w
    ensures Checks(order, w, k) ==
            if |order| % w > w / 2 then Guarded(order, w, k, |order|, Pow2(|order| % w) - 1) else Tests(order, w, k, |order|)
  {
  }
}
