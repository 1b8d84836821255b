/** Every state file that an apply writes is accepted by unset, which reads back all that was written. */
module QosAccept {
  import opened Prelude
  import opened Dictionaries
  import opened QosText
  import opened QosDriver
  import opened QosState

  // ---- the shape of what captures write

  /** The text that `str` gives for a number. */
  predicate Canonical(k: string) {
    ParseInt(k).Some? && Str(ParseInt(k).value) == k
  }

  predicate NumTuple(j: Json, length: nat) {
    j.Arr? && |j.items| == length && forall i :: 0 <= i < length ==> j.items[i].Num?
  }

  ghost predicate TupleFields(fields: Dict<string, Json>, length: nat) {
    fields.Valid() && forall k :: fields.Has(k) ==> Canonical(k) && NumTuple(fields.At(k), length)
  }

  ghost predicate QosFields(fields: Dict<string, Json>) {
    && fields.Valid()
    && forall k :: fields.Has(k) ==>
         Canonical(k) && fields.At(k).Obj? && TupleFields(fields.At(k).fields, QOS_LENGTH)
  }

  ghost predicate Shaped(b: Baseline) {
    QosFields(b.qos) && TupleFields(b.mata, MATA_LENGTH) && TupleFields(b.fuse, FUSE_LENGTH)
  }

  // ---- writing the parsed values again

  function TuplesAsJson(t: Dict<string, seq<int>>): Dict<string, Json> {
    Dict(t.keys, map k | k in t.items :: Arr(Nums(t.items[k])))
  }

  /** The file that holds the parsed values; the inverse of ParseState on what an apply writes. */
  function Unparse(p: Parsed): Json {
    Encode(Baseline(Dict(p.qos.keys, map k | k in p.qos.items :: Obj(TuplesAsJson(p.qos.items[k]))),
                    TuplesAsJson(p.mata), TuplesAsJson(p.fuse)), p.printed)
  }

  // ---- what the validator makes of it

  lemma NumTupleRoundTrip(j: Json, length: nat)
    requires NumTuple(j, length)
    ensures ToTuple(j, length).Some? && Arr(Nums(ToTuple(j, length).value)) == j
  {
    var ns := ToTuple(j, length).value;
    assert forall i :: 0 <= i < length ==> Nums(ns)[i] == j.items[i];
    assert Nums(ns) == j.items;
  }

  lemma TuplesAccepted(fields: Dict<string, Json>, length: nat)
    requires TupleFields(fields, length)
    ensures ParseTuples(fields, length).Some? && ParseTuples(fields, length).value.keys == fields.keys
    ensures forall k :: fields.Has(k) ==>
              && ParseTuples(fields, length).value.Has(k)
              && ToTuple(fields.At(k), length) == Some(ParseTuples(fields, length).value.At(k))
  {
    forall k | fields.Has(k)
      ensures ToTuple(fields.At(k), length).Some?
    {
      NumTupleRoundTrip(fields.At(k), length);
    }
    CollectAll(fields.keys, TupleEntry(fields, length));
  }

  lemma MastersAccepted(fields: Dict<string, Json>)
    requires TupleFields(fields, QOS_LENGTH)
    ensures ParseMasters(fields).Some? && ParseMasters(fields).value.keys == fields.keys
    ensures forall k :: fields.Has(k) ==>
              && ParseMasters(fields).value.Has(k)
              && ToTuple(fields.At(k), QOS_LENGTH) == Some(ParseMasters(fields).value.At(k))
  {
    forall k | fields.Has(k)
      ensures ToTuple(fields.At(k), QOS_LENGTH).Some?
    {
      NumTupleRoundTrip(fields.At(k), QOS_LENGTH);
    }
    CollectAll(fields.keys, MasterEntry(fields));
  }

  lemma QosAccepted(fields: Dict<string, Json>)
    requires QosFields(fields)
    ensures ParseQos(fields).Some? && ParseQos(fields).value.keys == fields.keys
    ensures forall k :: fields.Has(k) ==>
              && ParseQos(fields).value.Has(k) && fields.At(k).Obj?
              && ParseMasters(fields.At(k).fields) == Some(ParseQos(fields).value.At(k))
  {
    forall k | fields.Has(k)
      ensures ParseMasters(fields.At(k).fields).Some?
    {
      MastersAccepted(fields.At(k).fields);
    }
    CollectAll(fields.keys, QosEntries(fields));
  }

  /** A dictionary of number tuples is what its parsed tuples are written as. */
  lemma TuplesWritten(fields: Dict<string, Json>, length: nat, t: Dict<string, seq<int>>)
    requires TupleFields(fields, length) && t.Valid() && t.keys == fields.keys
    requires forall k :: fields.Has(k) ==> t.Has(k) && ToTuple(fields.At(k), length) == Some(t.At(k))
    ensures TuplesAsJson(t) == fields
  {
    forall k | fields.Has(k)
      ensures TuplesAsJson(t).Has(k) && TuplesAsJson(t).At(k) == fields.At(k)
    {
      NumTupleRoundTrip(fields.At(k), length);
    }
    SameItems(TuplesAsJson(t), fields);
  }

  lemma SameItems(a: Dict<string, Json>, b: Dict<string, Json>)
    requires a.keys == b.keys && (forall k :: a.Has(k) ==> k in a.keys) && b.Valid()
    requires forall k :: b.Has(k) ==> a.Has(k) && a.At(k) == b.At(k)
    ensures a == b
  {
    forall k
      ensures k in a.items <==> k in b.items
    {
      assert a.Has(k) ==> k in a.keys;
      assert b.Has(k) ==> a.Has(k);
    }
    assert a.items.Keys == b.items.Keys;
    forall k | k in b.items
      ensures a.items[k] == b.items[k]
    {
      assert b.Has(k) ==> a.At(k) == b.At(k);
    }
  }

  lemma QosWritten(fields: Dict<string, Json>, q: Dict<string, Dict<string, seq<int>>>)
    requires QosFields(fields) && ParseQos(fields) == Some(q)
    ensures Dict(q.keys, map k | k in q.items :: Obj(TuplesAsJson(q.items[k]))) == fields
  {
    QosAccepted(fields);
    var r := Dict(q.keys, map k | k in q.items :: Obj(TuplesAsJson(q.items[k])));
    forall k | fields.Has(k)
      ensures r.Has(k) && r.At(k) == fields.At(k)
    {
      MastersAccepted(fields.At(k).fields);
      TuplesWritten(fields.At(k).fields, QOS_LENGTH, q.At(k));
    }
    SameItems(r, fields);
  }

  lemma EncodedFields(b: Baseline, printed: seq<string>)
    ensures var fields := Encode(b, printed).fields;
            && fields.Has(QOS) && fields.At(QOS) == Obj(b.qos)
            && fields.Has(PRINTED) && fields.At(PRINTED) == Arr(Texts(printed))
            && ObjectField(fields, MATA) == Some(b.mata) && ObjectField(fields, FUSE) == Some(b.fuse)
  {
  }

  lemma ParseEncoded(b: Baseline, printed: seq<string>)
    requires ParseQos(b.qos).Some? && ParseTuples(b.mata, MATA_LENGTH).Some? && ParseTuples(b.fuse, FUSE_LENGTH).Some?
    ensures ParseState(Encode(b, printed))
         == Some(Parsed(ParseQos(b.qos).value, ParseTuples(b.mata, MATA_LENGTH).value,
                        ParseTuples(b.fuse, FUSE_LENGTH).value, printed))
  {
    EncodedFields(b, printed);
    assert ParseTexts(Arr(Texts(printed))).value == printed;
  }

  lemma ShapedParses(b: Baseline, printed: seq<string>)
    requires Shaped(b)
    ensures ParseQos(b.qos).Some? && ParseTuples(b.mata, MATA_LENGTH).Some? && ParseTuples(b.fuse, FUSE_LENGTH).Some?
    ensures ParseState(Encode(b, printed))
         == Some(Parsed(ParseQos(b.qos).value, ParseTuples(b.mata, MATA_LENGTH).value,
                        ParseTuples(b.fuse, FUSE_LENGTH).value, printed))
  {
    QosAccepted(b.qos);
    TuplesAccepted(b.mata, MATA_LENGTH);
    TuplesAccepted(b.fuse, FUSE_LENGTH);
    ParseEncoded(b, printed);
  }

  /** The file is accepted, and writing the parsed values gives the file again. */
  lemma EncodedAccepted(b: Baseline, printed: seq<string>)
    requires Shaped(b)
    ensures ParseState(Encode(b, printed)).Some? && Unparse(ParseState(Encode(b, printed)).value) == Encode(b, printed)
  {
    ShapedParses(b, printed);
    var mata, fuse := ParseTuples(b.mata, MATA_LENGTH).value, ParseTuples(b.fuse, FUSE_LENGTH).value;
    QosWritten(b.qos, ParseQos(b.qos).value);
    TuplesAccepted(b.mata, MATA_LENGTH);
    TuplesWritten(b.mata, MATA_LENGTH, mata);
    TuplesAccepted(b.fuse, FUSE_LENGTH);
    TuplesWritten(b.fuse, FUSE_LENGTH, fuse);
  }

  // ---- captures keep the shape, whatever can be read

  lemma PutTuple(fields: Dict<string, Json>, n: int, j: Json, length: nat)
    requires TupleFields(fields, length) && NumTuple(j, length)
    ensures TupleFields(fields.Put(Str(n), j), length)
  {
    IntRoundTrip(n);
  }

  lemma {:induction false} QosEntryShaped(d: Driver, dev: int, masters: seq<int>, f: Faults)
    requires ValidDriver(d)
    ensures TupleFields(QosEntry(d, dev, masters, f), QOS_LENGTH)
  {
    if masters != [] {
      var init, m := masters[..|masters| - 1], masters[|masters| - 1];
      QosEntryShaped(d, dev, init, f);
      var q := Read(d, QosOf(dev, m), f);
      if q.Some? {
        PutTuple(QosEntry(d, dev, init, f), m, QosTuple(m, q.value), QOS_LENGTH);
      }
    }
  }

  lemma PutQos(fields: Dict<string, Json>, n: int, masters: Dict<string, Json>)
    requires QosFields(fields) && TupleFields(masters, QOS_LENGTH)
    ensures QosFields(fields.Put(Str(n), Obj(masters)))
  {
    IntRoundTrip(n);
  }

  lemma CaptureOneShaped(b: Baseline, d: Driver, dev: int, f: Faults)
    requires ValidDriver(d) && Shaped(b)
    ensures Shaped(CaptureOne(b, d, dev, f))
  {
    QosEntryShaped(d, dev, MASTERS, f);
    PutQos(b.qos, dev, QosEntry(d, dev, MASTERS, f));
    var mata, fuse := MataEntry(d, dev, f), FuseEntry(d, dev, f);
    if mata.Some? {
      PutTuple(b.mata, dev, mata.value, MATA_LENGTH);
    }
    if fuse.Some? {
      PutTuple(b.fuse, dev, fuse.value, FUSE_LENGTH);
    }
  }

  lemma {:induction false} CaptureShaped(b: Baseline, d: Driver, devs: seq<int>, f: Faults)
    requires ValidDriver(d) && Shaped(b)
    ensures Shaped(Capture(b, d, devs, f))
  {
    if devs != [] {
      CaptureShaped(b, d, devs[..|devs| - 1], f);
      CaptureOneShaped(Capture(b, d, devs[..|devs| - 1], f), d, devs[|devs| - 1], f);
    }
  }
}
