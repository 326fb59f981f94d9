/** What follows from the round trip: when a record comes back unchanged, and that
    fields a decoder does not know make no difference. */
module CodecLaws {
  import opened Wire
  import opened Codec
  import Skip

  // ----- which records come back unchanged -----

  /** Nothing that is written is a nil list, map or pointer, and what is not written
      is as a New function leaves it. */
  predicate Canonical(t: Table, r: string, v: Val)
    decreases v, 0
  {
    && v.Rec? && v.rec == r && |v.fields| == |Specs(t, r)|
    && (forall i :: 0 <= i < |v.fields| ==>
          var spec := Specs(t, r)[i];
          if Written(spec, v.fields[i]) then CanonicalValue(t, spec.kind, v.fields[i])
          else v.fields[i] == spec.initial)
  }

  predicate CanonicalValue(t: Table, k: Kind, v: Val)
    decreases v, 1
  {
    match k
    case KStruct(r) => Canonical(t, r, v)
    case KStrings => v.List?
    case KStructs(r) => v.List? && (forall i :: 0 <= i < |v.elems| ==> Canonical(t, r, v.elems[i]))
    case KEnumMap => v.Dict?
    case _ => true
  }

  lemma {:induction false} FilledAt(t: Table, r: string, fs: seq<Val>, gs: seq<Val>, i: nat, j: nat, k: nat)
    requires |gs| == |fs| == |Specs(t, r)| && k < |fs| && j <= |fs|
    ensures Filled(t, r, fs, gs, i, j)[k] ==
            if i <= k < j && Written(Specs(t, r)[k], fs[k]) then Norm(t, Specs(t, r)[k].kind, fs[k]) else gs[k]
    decreases j - i
  {
    hide Norm;
    if i < j {
      FilledAt(t, r, fs, FillAt(t, r, fs, gs, i), i + 1, j, k);
    }
  }

  lemma {:induction false} NormRecordsAt(t: Table, r: string, vs: seq<Val>, k: nat)
    requires k < |vs|
    ensures |NormRecords(t, r, vs)| == |vs| && NormRecords(t, r, vs)[k] == NormRecord(t, r, vs[k])
  {
    hide NormRecord;
    if |vs| > 1 {
      NormRecordsAt(t, r, vs[1..], if k > 0 then k - 1 else 0);
    }
  }

  /** Encoding and decoding gives back the very same record if and only if it is canonical. */
  lemma {:induction false} UnchangedIffCanonical(t: Table, r: string, v: Val)
    requires FitsRecord(t, r, v)
    ensures NormRecord(t, r, v) == v <==> Canonical(t, r, v)
    decreases v, 0
  {
    if v.Rec? {
      var n := |Specs(t, r)|;
      var fs := Filled(t, r, v.fields, New(t, r), 0, n);
      forall i | 0 <= i < n
        ensures fs[i] == v.fields[i] <==>
                if Written(Specs(t, r)[i], v.fields[i]) then CanonicalValue(t, Specs(t, r)[i].kind, v.fields[i])
                else v.fields[i] == Specs(t, r)[i].initial
      {
        FilledAt(t, r, v.fields, New(t, r), 0, n, i);
        if Written(Specs(t, r)[i], v.fields[i]) {
          ValueUnchangedIffCanonical(t, Specs(t, r)[i].kind, v.fields[i]);
        }
      }
      assert fs == v.fields <==> forall i :: 0 <= i < n ==> fs[i] == v.fields[i];
    }
  }

  lemma {:induction false} ValueUnchangedIffCanonical(t: Table, k: Kind, v: Val)
    requires Fits(t, k, v)
    ensures Norm(t, k, v) == v <==> CanonicalValue(t, k, v)
    decreases v, 1
  {
    match k
    case KStruct(r) => UnchangedIffCanonical(t, r, v);
    case KStructs(r) =>
      if v.List? {
        hide NormRecord, Canonical;
        var ns := NormRecords(t, r, v.elems);
        forall i | 0 <= i < |v.elems|
          ensures |ns| == |v.elems| && (ns[i] == v.elems[i] <==> Canonical(t, r, v.elems[i]))
        {
          NormRecordsAt(t, r, v.elems, i);
          UnchangedIffCanonical(t, r, v.elems[i]);
        }
        assert ns == v.elems <==> |ns| == |v.elems| && forall i :: 0 <= i < |v.elems| ==> ns[i] == v.elems[i];
      }
    case _ =>
  }

  /** The round trip for canonical records. */
  lemma CanonicalRoundTrip(t: Table, r: string, v: Val, rest: Bytes)
    requires WellFormedTable(t) && FitsRecord(t, r, v) && Canonical(t, r, v)
    ensures ReadValue(t, KStruct(r), PutRecord(t, r, v) + rest) == Got(v, |PutRecord(t, r, v)|)
  {
    ReadsRecord(t, r, v, rest);
    UnchangedIffCanonical(t, r, v);
    hide ReadRecord, PutRecord, NormRecord, Canonical;
  }

  // ----- unknown fields -----

  datatype Unknown = Unknown(id: int, value: Skip.Value)

  /** A well-formed field that no case of the decoder of these fields matches. */
  predicate UnknownTo(specs: seq<FieldSpec>, u: Unknown) {
    && FitsI16(u.id) && Skip.WellFormed(u.value)
    && Find(specs, Header(Skip.TypeOf(u.value), u.id), 0) < 0
  }

  function PutUnknown(u: Unknown): Bytes {
    PutField(Skip.TypeOf(u.value), u.id) + Skip.Put(u.value)
  }

  function PutUnknowns(us: seq<Unknown>): Bytes {
    if us == [] then [] else PutUnknown(us[0]) + PutUnknowns(us[1..])
  }

  /** A record whose `i`-th field has the unknown fields `extra[i]` before it; the last
      group stands before the stop byte. */
  function PutMixed(t: Table, r: string, fs: seq<Val>, extra: seq<seq<Unknown>>, i: nat): Bytes
    requires i <= |Specs(t, r)| && |extra| == |Specs(t, r)| + 1
    decreases |extra| - i
  {
    PutUnknowns(extra[i]) +
    (if i == |Specs(t, r)| then [STOP] else PutAt(t, r, fs, i) + PutMixed(t, r, fs, extra, i + 1))
  }

  function ExtraLength(extra: seq<seq<Unknown>>): nat {
    if extra == [] then 0 else |PutUnknowns(extra[0])| + ExtraLength(extra[1..])
  }

  lemma SkipsUnknown(t: Table, r: string, u: Unknown, rest: Bytes, fs: seq<Val>)
    requires |fs| == |Specs(t, r)| && UnknownTo(Specs(t, r), u)
    ensures ReadRecord(t, r, PutUnknown(u) + rest, fs) == Skip.After(|PutUnknown(u)|, ReadRecord(t, r, rest, fs))
  {
    var ttype := Skip.TypeOf(u.value);
    var head, body := PutField(ttype, u.id), Skip.Put(u.value);
    Skip.TypeIsNotStop(u.value);
    FieldRoundTrip(ttype, u.id, body + rest);
    Skip.SkipsValue(u.value, rest);
    hide Skip.SkipValue, Skip.Put, Skip.WellFormed, GetField, PutField, Find, ReadValue;
    UnknownStep(t, r, Header(ttype, u.id), head, body, rest, fs);
  }

  lemma UnknownStep(t: Table, r: string, h: Header, head: Bytes, body: Bytes, rest: Bytes, fs: seq<Val>)
    requires |fs| == |Specs(t, r)| && h.ttype != STOP && Find(Specs(t, r), h, 0) < 0
    requires GetField(head + (body + rest)) == Got(h, |head|)
    requires Skip.SkipValue(body + rest, h.ttype) == Got((), |body|)
    ensures ReadRecord(t, r, (head + body) + rest, fs) == Skip.After(|head + body|, ReadRecord(t, r, rest, fs))
  {
    hide Skip.SkipValue, GetField, Find, ReadValue;
    ListBody(head, body, rest);
    PrefixOf(head + body, rest);
    assert |head + body| == |head| + |body|;
  }

  lemma {:induction false} SkipsUnknowns(t: Table, r: string, us: seq<Unknown>, rest: Bytes, fs: seq<Val>)
    requires |fs| == |Specs(t, r)|
    requires forall k :: 0 <= k < |us| ==> UnknownTo(Specs(t, r), us[k])
    ensures ReadRecord(t, r, PutUnknowns(us) + rest, fs) == Skip.After(|PutUnknowns(us)|, ReadRecord(t, r, rest, fs))
  {
    hide ReadRecord, PutUnknown, UnknownTo;
    if us == [] {
      assert PutUnknowns(us) + rest == rest;
    } else {
      var first, more := PutUnknown(us[0]), PutUnknowns(us[1..]);
      SkipsUnknown(t, r, us[0], more + rest, fs);
      SkipsUnknowns(t, r, us[1..], rest, fs);
      ListBody(first, more, rest);
      AfterAfter(|first|, |more|, ReadRecord(t, r, rest, fs));
    }
  }

  lemma {:induction false} ReadsMixed(t: Table, r: string, fs: seq<Val>, extra: seq<seq<Unknown>>, i: nat,
                                      gs: seq<Val>, rest: Bytes)
    requires WellFormedTable(t) && FitsFields(t, r, fs)
    requires |gs| == |fs| == |Specs(t, r)| && i <= |fs| && |extra| == |fs| + 1
    requires forall k, l :: 0 <= k < |extra| && 0 <= l < |extra[k]| ==> UnknownTo(Specs(t, r), extra[k][l])
    ensures ReadRecord(t, r, PutMixed(t, r, fs, extra, i) + rest, gs)
            == Got(Filled(t, r, fs, gs, i, |fs|), |PutMixed(t, r, fs, extra, i)|)
    ensures |PutMixed(t, r, fs, extra, i)| == |PutRange(t, r, fs, i, |fs|)| + ExtraLength(extra[i..]) + 1
    decreases |extra| - i
  {
    hide ReadRecord, PutAt, FillAt, FitsFields, PutUnknowns, UnknownTo;
    assert extra[i..][1..] == extra[i + 1..];
    var before := PutUnknowns(extra[i]);
    if i == |fs| {
      SkipsUnknowns(t, r, extra[i], [STOP] + rest, gs);
      ReadsStop(t, r, rest, gs);
      ListBody(before, [STOP], rest);
    } else {
      var here, more := PutAt(t, r, fs, i), PutMixed(t, r, fs, extra, i + 1);
      var hs := FillAt(t, r, fs, gs, i);
      ReadsMixed(t, r, fs, extra, i + 1, hs, rest);
      ReadsAt(t, r, fs, gs, i, more + rest);
      SkipsUnknowns(t, r, extra[i], here + (more + rest), gs);
      Regroup(before, here, more, rest);
    }
  }

  /** Unknown fields, any number of them before any field and before the stop byte, leave
      what is read unchanged and account exactly for the extra bytes used. */
  lemma UnknownFieldsAreTransparent(t: Table, r: string, v: Val, extra: seq<seq<Unknown>>, rest: Bytes)
    requires WellFormedTable(t) && v.Rec? && FitsRecord(t, r, v)
    requires |extra| == |Specs(t, r)| + 1
    requires forall k, l :: 0 <= k < |extra| && 0 <= l < |extra[k]| ==> UnknownTo(Specs(t, r), extra[k][l])
    ensures var plain := ReadRecord(t, r, PutRecord(t, r, v) + rest, New(t, r));
            && plain.Got?
            && ReadRecord(t, r, PutMixed(t, r, v.fields, extra, 0) + rest, New(t, r))
               == Got(plain.value, plain.used + ExtraLength(extra))
  {
    ReadsRecord(t, r, v, rest);
    ReadsMixed(t, r, v.fields, extra, 0, New(t, r), rest);
    assert extra[0..] == extra;
    hide ReadRecord, PutMixed, PutRange, Filled;
  }
}
