/** Skipping a field whose (id, wire type) pair no case of a decoder knows. */
module Skip {
  import opened Wire

  /** The byte count of a wire type of fixed size, 0 for the others. */
  function FixedSize(t: byte): nat {
    if t == BOOL || t == BYTE then 1
    else if t == I16 then 2
    else if t == I32 then 4
    else if t == I64 || t == DOUBLE then 8
    else 0
  }

  /** How many bytes a value of wire type `t` at the front of `b` takes. */
  function SkipValue(b: Bytes, t: byte): (r: Read<()>)
    ensures r.Got? ==> 1 <= r.used <= |b|
    decreases |b|, 1
  {
    if FixedSize(t) > 0 then
      if |b| < FixedSize(t) then Bad else Got((), FixedSize(t))
    else if t == STRING then
      match GetString(b)
      case Bad => Bad
      case Got(_, l) => Got((), l)
    else if t == STRUCT then
      SkipFields(b)
    else if t == LIST || t == SET then
      match GetList(b)
      case Bad => Bad
      case Got(h, l) => After(l, SkipMany(b[l..], h.0, h.1))
    else if t == MAP then
      match GetMap(b)
      case Bad => Bad
      case Got(h, l) => After(l, SkipPairs(b[l..], h.0, h.1, h.2))
    else Bad
  }

  function SkipFields(b: Bytes): (r: Read<()>)
    ensures r.Got? ==> 1 <= r.used <= |b|
    decreases |b|, 0
  {
    match GetField(b)
    case Bad => Bad
    case Got(h, l) =>
      if h.ttype == STOP then Got((), l)
      else match SkipValue(b[l..], h.ttype)
        case Bad => Bad
        case Got(_, l') => After(l + l', SkipFields(b[l + l'..]))
  }

  function SkipMany(b: Bytes, t: byte, n: nat): (r: Read<()>)
    ensures r.Got? ==> r.used <= |b|
    decreases |b|, 2, n
  {
    if n == 0 then Got((), 0)
    else match SkipValue(b, t)
      case Bad => Bad
      case Got(_, l) => After(l, SkipMany(b[l..], t, n - 1))
  }

  function SkipPairs(b: Bytes, kt: byte, vt: byte, n: nat): (r: Read<()>)
    ensures r.Got? ==> r.used <= |b|
    decreases |b|, 3, n
  {
    if n == 0 then Got((), 0)
    else match SkipPair(b, kt, vt)
      case Bad => Bad
      case Got(_, l) => After(l, SkipPairs(b[l..], kt, vt, n - 1))
  }

  /** A key and the value after it. */
  function SkipPair(b: Bytes, kt: byte, vt: byte): (r: Read<()>)
    ensures r.Got? ==> 1 <= r.used <= |b|
    decreases |b|, 2
  {
    match SkipValue(b, kt)
    case Bad => Bad
    case Got(_, l) => After(l, SkipValue(b[l..], vt))
  }

  function After<T>(l: nat, r: Read<T>): Read<T> {
    match r
    case Bad => Bad
    case Got(v, u) => Got(v, l + u)
  }

  // ----- the well-formed values of the protocol -----

  datatype Value =
    | Fixed(ttype: byte, raw: Bytes)
    | Text(raw: Bytes)
    | Record(fields: Fields)
    | Sequence(ttype: byte, elem: byte, elems: Values)
    | Dictionary(key: byte, value: byte, pairs: Pairs)

  datatype Fields = NoField | AddField(id: int, value: Value, rest: Fields)
  datatype Values = NoValue | AddValue(value: Value, rest: Values)
  datatype Pairs = NoPair | AddPair(key: Value, value: Value, rest: Pairs)

  function TypeOf(v: Value): byte {
    match v
    case Fixed(t, _) => t
    case Text(_) => STRING
    case Record(_) => STRUCT
    case Sequence(t, _, _) => t
    case Dictionary(_, _, _) => MAP
  }

  function Count(vs: Values): nat {
    match vs
    case NoValue => 0
    case AddValue(_, rest) => 1 + Count(rest)
  }

  function CountPairs(ps: Pairs): nat {
    match ps
    case NoPair => 0
    case AddPair(_, _, rest) => 1 + CountPairs(rest)
  }

  predicate WellFormed(v: Value) {
    match v
    case Fixed(t, raw) =>
      if t == BOOL || t == BYTE then |raw| == 1
      else if t == I16 then |raw| == 2
      else if t == I32 then |raw| == 4
      else (t == I64 || t == DOUBLE) && |raw| == 8
    case Text(raw) => |raw| < TWO_TO_THE_31
    case Record(fs) => WellFormedFields(fs)
    case Sequence(t, elem, vs) => (t == LIST || t == SET) && Count(vs) < TWO_TO_THE_31 && WellFormedValues(vs, elem)
    case Dictionary(k, v, ps) => CountPairs(ps) < TWO_TO_THE_31 && WellFormedPairs(ps, k, v)
  }

  predicate WellFormedFields(fs: Fields) {
    match fs
    case NoField => true
    case AddField(id, v, rest) => FitsI16(id) && WellFormed(v) && WellFormedFields(rest)
  }

  predicate WellFormedValues(vs: Values, t: byte) {
    match vs
    case NoValue => true
    case AddValue(v, rest) => TypeOf(v) == t && WellFormed(v) && WellFormedValues(rest, t)
  }

  predicate WellFormedPairs(ps: Pairs, kt: byte, vt: byte) {
    match ps
    case NoPair => true
    case AddPair(k, v, rest) =>
      TypeOf(k) == kt && TypeOf(v) == vt && WellFormed(k) && WellFormed(v) && WellFormedPairs(rest, kt, vt)
  }

  function Put(v: Value): Bytes {
    match v
    case Fixed(_, raw) => raw
    case Text(raw) => PutString(raw)
    case Record(fs) => PutFields(fs)
    case Sequence(_, elem, vs) => PutList(elem, Count(vs)) + PutValues(vs)
    case Dictionary(k, v, ps) => PutMap(k, v, CountPairs(ps)) + PutPairs(ps)
  }

  function PutFields(fs: Fields): Bytes {
    match fs
    case NoField => [STOP]
    case AddField(id, v, rest) => PutField(TypeOf(v), id) + (Put(v) + PutFields(rest))
  }

  function PutValues(vs: Values): Bytes {
    match vs
    case NoValue => []
    case AddValue(v, rest) => Put(v) + PutValues(rest)
  }

  function PutPairs(ps: Pairs): Bytes {
    match ps
    case NoPair => []
    case AddPair(k, v, rest) => (Put(k) + Put(v)) + PutPairs(rest)
  }

  // ----- skipping consumes exactly the value -----

  lemma {:induction false} SkipsValue(v: Value, rest: Bytes)
    requires WellFormed(v)
    ensures SkipValue(Put(v) + rest, TypeOf(v)) == Got((), |Put(v)|)
  {
    hide SkipFields, SkipMany, SkipPairs, PutFields, PutValues, PutPairs;
    var b := Put(v) + rest;
    match v
    case Fixed(_, _) =>
    case Text(raw) => StringRoundTrip(raw, rest);
    case Record(fs) => SkipsFields(fs, rest);
    case Sequence(_, elem, vs) =>
      var head, tail := PutList(elem, Count(vs)), PutValues(vs) + rest;
      assert b == head + tail;
      ListRoundTrip(elem, Count(vs), tail);
      PrefixOf(head, tail);
      SkipsValues(vs, elem, rest);
    case Dictionary(k, v', ps) =>
      var head, tail := PutMap(k, v', CountPairs(ps)), PutPairs(ps) + rest;
      assert b == head + tail;
      MapRoundTrip(k, v', CountPairs(ps), tail);
      PrefixOf(head, tail);
      SkipsPairs(ps, k, v', rest);
  }

  lemma PrefixesOf(a: Bytes, c: Bytes, rest: Bytes)
    ensures (a + (c + rest))[|a|..] == c + rest
    ensures (a + (c + rest))[|a| + |c|..] == rest
  {
  }

  /** One turn of the field loop: a header, a value that is skipped, and fields that are. */
  lemma FieldsStep(t: byte, id: int, value: Bytes, more: Bytes, rest: Bytes)
    requires t != STOP && FitsI16(id)
    requires SkipValue(value + (more + rest), t) == Got((), |value|)
    requires SkipFields(more + rest) == Got((), |more|)
    ensures SkipFields((PutField(t, id) + (value + more)) + rest) == Got((), 3 + |value| + |more|)
  {
    hide SkipFields, SkipValue, PutField, GetField;
    var tail := more + rest;
    var b := PutField(t, id) + (value + tail);
    FieldRoundTrip(t, id, value + tail);
    PrefixesOf(PutField(t, id), value, tail);
    SkipFieldsIs(b);
    Rejoin(PutField(t, id), value, more, rest);
  }

  lemma SkipFieldsIs(b: Bytes)
    ensures var h := GetField(b);
            h.Got? && h.value.ttype != STOP ==>
              var v := SkipValue(b[h.used..], h.value.ttype);
              v.Got? ==> SkipFields(b) == After(h.used + v.used, SkipFields(b[h.used + v.used..]))
  {
    hide SkipValue, GetField;
  }

  lemma Rejoin(a: Bytes, b: Bytes, c: Bytes, d: Bytes)
    ensures (a + (b + c)) + d == a + (b + (c + d))
  {
  }

  lemma TypeIsNotStop(v: Value)
    requires WellFormed(v)
    ensures TypeOf(v) != STOP
  {
  }

  lemma {:induction false} SkipsFields(fs: Fields, rest: Bytes)
    requires WellFormedFields(fs)
    ensures SkipFields(PutFields(fs) + rest) == Got((), |PutFields(fs)|)
  {
    if fs.AddField? {
      TypeIsNotStop(fs.value);
      SkipsValue(fs.value, PutFields(fs.rest) + rest);
      SkipsFields(fs.rest, rest);
      FieldsStep(TypeOf(fs.value), fs.id, Put(fs.value), PutFields(fs.rest), rest);
    }
  }

  lemma {:induction false} SkipsValues(vs: Values, t: byte, rest: Bytes)
    requires WellFormedValues(vs, t)
    ensures SkipMany(PutValues(vs) + rest, t, Count(vs)) == Got((), |PutValues(vs)|)
  {
    hide SkipValue, Put;
    match vs
    case NoValue =>
    case AddValue(v, more) =>
      var tail := PutValues(more) + rest;
      assert PutValues(vs) + rest == Put(v) + tail;
      SkipsValue(v, tail);
      PrefixOf(Put(v), tail);
      SkipsValues(more, t, rest);
  }

  lemma SkipsPair(k: Value, v: Value, rest: Bytes)
    requires SkipValue(Put(k) + (Put(v) + rest), TypeOf(k)) == Got((), |Put(k)|)
    requires SkipValue(Put(v) + rest, TypeOf(v)) == Got((), |Put(v)|)
    ensures SkipPair((Put(k) + Put(v)) + rest, TypeOf(k), TypeOf(v)) == Got((), |Put(k) + Put(v)|)
  {
    hide SkipValue, Put;
    assert (Put(k) + Put(v)) + rest == Put(k) + (Put(v) + rest);
    PrefixOf(Put(k), Put(v) + rest);
  }

  /** One turn of the map loop. */
  lemma PairsStep(kt: byte, vt: byte, n: nat, pair: Bytes, more: Bytes, rest: Bytes)
    requires n > 0
    requires SkipPair(pair + (more + rest), kt, vt) == Got((), |pair|)
    requires SkipPairs(more + rest, kt, vt, n - 1) == Got((), |more|)
    ensures SkipPairs((pair + more) + rest, kt, vt, n) == Got((), |pair| + |more|)
  {
    assert (pair + more) + rest == pair + (more + rest);
    PrefixOf(pair, more + rest);
  }

  lemma {:induction false} SkipsPairs(ps: Pairs, kt: byte, vt: byte, rest: Bytes)
    requires WellFormedPairs(ps, kt, vt)
    ensures SkipPairs(PutPairs(ps) + rest, kt, vt, CountPairs(ps)) == Got((), |PutPairs(ps)|)
  {
    if ps.AddPair? {
      var tail := PutPairs(ps.rest) + rest;
      SkipsValue(ps.key, Put(ps.value) + tail);
      SkipsValue(ps.value, tail);
      SkipsPair(ps.key, ps.value, tail);
      SkipsPairs(ps.rest, kt, vt, rest);
      PairsStep(kt, vt, CountPairs(ps), Put(ps.key) + Put(ps.value), PutPairs(ps.rest), rest);
    }
  }
}
