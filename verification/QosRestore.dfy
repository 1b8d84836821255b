/** Unset puts back exactly the settings that the state file holds. */
module QosRestore {
  import opened Prelude
  import opened Dictionaries
  import opened QosText
  import opened QosDriver
  import opened QosState
  import opened QosAccept

  // ---- a baseline that tells the truth about the original settings

  predicate TrueMaster(t: Json, k: string, d0: Driver, dev: int) {
    Canonical(k) &&
    var s := QosOf(dev, ParseInt(k).value);
    s in d0 && d0[s].Qos? && t == QosTuple(s.master, d0[s])
  }

  ghost predicate TrueQos(j: Json, d0: Driver, dev: int) {
    j.Obj? && j.fields.Valid() && forall k :: j.fields.Has(k) ==> TrueMaster(j.fields.At(k), k, d0, dev)
  }

  predicate TrueMata(j: Json, d0: Driver, dev: int) {
    j.Arr? && |j.items| == 4 && j.items[0].Num? &&
    var s := BwOf(dev, j.items[0].n);
    s in d0 && d0[s].Bandwidth? && j == Arr(Nums([s.mpamid, d0[s].low, d0[s].high, d0[s].hard]))
  }

  predicate TrueFuse(j: Json, d0: Driver, dev: int) {
    var s := FuseOf(dev);
    s in d0 && d0[s].Fuse? && j == Arr(Nums([d0[s].enable, d0[s].auto, d0[s].select]))
  }

  ghost predicate AllTrueQos(q: Dict<string, Json>, d0: Driver) {
    q.Valid() && forall k :: q.Has(k) ==> Canonical(k) && TrueQos(q.At(k), d0, ParseInt(k).value)
  }

  ghost predicate AllTrueMata(m: Dict<string, Json>, d0: Driver) {
    m.Valid() && forall k :: m.Has(k) ==> Canonical(k) && TrueMata(m.At(k), d0, ParseInt(k).value)
  }

  ghost predicate AllTrueFuse(x: Dict<string, Json>, d0: Driver) {
    x.Valid() && forall k :: x.Has(k) ==> Canonical(k) && TrueFuse(x.At(k), d0, ParseInt(k).value)
  }

  /** Every entry is a setting of d0. */
  ghost predicate Truthful(b: Baseline, d0: Driver) {
    AllTrueQos(b.qos, d0) && AllTrueMata(b.mata, d0) && AllTrueFuse(b.fuse, d0)
  }

  predicate SavesQos(q: Dict<string, Json>, dev: int, m: int) {
    q.Has(Str(dev)) && q.At(Str(dev)).Obj? && q.At(Str(dev)).fields.Has(Str(m))
  }

  predicate SavesMata(x: Dict<string, Json>, dev: int, mpamid: int) {
    x.Has(Str(dev)) && x.At(Str(dev)).Arr? && x.At(Str(dev)).items != [] && x.At(Str(dev)).items[0] == Num(mpamid)
  }

  /** The baseline has an entry for the slot. */
  predicate Saves(b: Baseline, s: Slot) {
    match s
    case QosOf(dev, m) => SavesQos(b.qos, dev, m)
    case BwOf(dev, mpamid) => SavesMata(b.mata, dev, mpamid)
    case FuseOf(dev) => b.fuse.Has(Str(dev))
  }

  // ---- true entries have the shape the validator accepts

  lemma TrueQosShaped(j: Json, d0: Driver, dev: int)
    requires TrueQos(j, d0, dev)
    ensures TupleFields(j.fields, QOS_LENGTH)
  {
  }

  lemma TrueQosFields(q: Dict<string, Json>, d0: Driver)
    requires AllTrueQos(q, d0)
    ensures QosFields(q)
  {
    forall k | q.Has(k)
      ensures q.At(k).Obj? && TupleFields(q.At(k).fields, QOS_LENGTH)
    {
      TrueQosShaped(q.At(k), d0, ParseInt(k).value);
    }
  }

  lemma TruthfulIsShaped(b: Baseline, d0: Driver)
    requires Truthful(b, d0)
    ensures Shaped(b)
  {
    TrueQosFields(b.qos, d0);
  }

  predicate TrueTuple(t: seq<int>, k: string, d0: Driver, dev: int) {
    Canonical(k) && |t| == QOS_LENGTH &&
    var c := MasterChange(dev, k, t);
    c.slot in d0 && d0[c.slot] == c.value
  }

  /** The tuples of one device come back as they were captured. */
  lemma TrueQosAccepted(j: Json, d0: Driver, dev: int)
    requires TrueQos(j, d0, dev)
    ensures ParseMasters(j.fields).Some? && ParseMasters(j.fields).value.keys == j.fields.keys
    ensures forall k :: j.fields.Has(k) ==>
              && ParseMasters(j.fields).value.Has(k)
              && TrueTuple(ParseMasters(j.fields).value.At(k), k, d0, dev)
  {
    TrueQosShaped(j, d0, dev);
    MastersAccepted(j.fields);
    forall k | j.fields.Has(k)
      ensures TrueTuple(ParseMasters(j.fields).value.At(k), k, d0, dev)
    {
      var s := QosOf(dev, ParseInt(k).value);
      TupleRoundTrip([s.master, d0[s].mpamid, d0[s].qos, d0[s].pmg, d0[s].mode]);
    }
  }

  // ---- the writes of unset

  ghost predicate Touches(changes: seq<Change>, s: Slot) {
    exists i :: 0 <= i < |changes| && changes[i].slot == s
  }

  /** Every change writes what d0 holds. */
  ghost predicate Undoes(changes: seq<Change>, d0: Driver) {
    forall i :: 0 <= i < |changes| ==> changes[i].slot in d0 && d0[changes[i].slot] == changes[i].value
  }

  lemma {:induction false} WritesBack(d: Driver, changes: seq<Change>, f: Faults, d0: Driver)
    requires d.Keys == d0.Keys && Undoes(changes, d0) && forall s :: s in d0 ==> s !in f.failedWrites
    ensures WriteAll(d, changes, f).Keys == d0.Keys
    ensures forall s :: s in d0 ==> WriteAll(d, changes, f)[s] == if Touches(changes, s) then d0[s] else d[s]
  {
    if changes != [] {
      var init, last := changes[..|changes| - 1], changes[|changes| - 1];
      WritesBack(d, init, f, d0);
      forall s | s in d0
        ensures Touches(changes, s) <==> Touches(init, s) || s == last.slot
      {
        if Touches(init, s) {
          var i :| 0 <= i < |init| && init[i].slot == s;
          assert changes[i].slot == s;
        }
        if Touches(changes, s) && s != last.slot {
          var i :| 0 <= i < |changes| && changes[i].slot == s;
          assert init[i].slot == s;
        }
        assert changes[|changes| - 1].slot == last.slot;
      }
    }
  }

  lemma KeyOf<V>(d: Dict<string, V>, dev: int) returns (i: nat)
    requires d.Valid() && d.Has(Str(dev))
    ensures i < |d.keys| && d.keys[i] == Str(dev) && ParseInt(d.keys[i]) == Some(dev)
  {
    IntRoundTrip(dev);
    i := IndexOf(d.keys, Str(dev));
  }

  lemma BwChangeTrue(m: Dict<string, Json>, d0: Driver, mata: Dict<string, seq<int>>, k: string)
    requires AllTrueMata(m, d0) && ParseTuples(m, MATA_LENGTH) == Some(mata) && m.Has(k)
    ensures mata.Has(k) && |mata.At(k)| == MATA_LENGTH && ParseInt(k).Some? && m.At(k).Arr? && m.At(k).items != []
    ensures var c := BwChange(k, mata.At(k));
            c.slot in d0 && d0[c.slot] == c.value && m.At(k).items[0] == Num(c.slot.mpamid) && Str(c.slot.dev) == k
  {
    TuplesAccepted(m, MATA_LENGTH);
    var s := BwOf(ParseInt(k).value, m.At(k).items[0].n);
    TupleRoundTrip([s.mpamid, d0[s].low, d0[s].high, d0[s].hard]);
  }

  lemma BwUndoes(m: Dict<string, Json>, d0: Driver, mata: Dict<string, seq<int>>)
    requires AllTrueMata(m, d0) && ParseTuples(m, MATA_LENGTH) == Some(mata) && ValidTuples(mata, MATA_LENGTH)
    ensures Undoes(BwChanges(mata), d0)
    ensures forall s :: Touches(BwChanges(mata), s) <==> s.BwOf? && SavesMata(m, s.dev, s.mpamid)
  {
    TuplesAccepted(m, MATA_LENGTH);
    var changes := BwChanges(mata);
    forall i | 0 <= i < |changes|
      ensures changes[i].slot in d0 && d0[changes[i].slot] == changes[i].value
      ensures changes[i].slot.BwOf? && SavesMata(m, changes[i].slot.dev, changes[i].slot.mpamid)
    {
      assert mata.keys[i] in mata.keys && m.Has(mata.keys[i]);
      BwChangeTrue(m, d0, mata, mata.keys[i]);
    }
    forall s: Slot | s.BwOf? && SavesMata(m, s.dev, s.mpamid)
      ensures Touches(changes, s)
    {
      var i := KeyOf(m, s.dev);
      BwChangeTrue(m, d0, mata, mata.keys[i]);
      assert changes[i].slot == s;
    }
  }

  lemma FuseChangeTrue(x: Dict<string, Json>, d0: Driver, fuse: Dict<string, seq<int>>, k: string)
    requires AllTrueFuse(x, d0) && ParseTuples(x, FUSE_LENGTH) == Some(fuse) && x.Has(k)
    ensures fuse.Has(k) && |fuse.At(k)| == FUSE_LENGTH && ParseInt(k).Some?
    ensures var c := FuseChange(k, fuse.At(k)); c.slot in d0 && d0[c.slot] == c.value && Str(c.slot.dev) == k
  {
    TuplesAccepted(x, FUSE_LENGTH);
    var s := FuseOf(ParseInt(k).value);
    TupleRoundTrip([d0[s].enable, d0[s].auto, d0[s].select]);
  }

  lemma FuseUndoes(x: Dict<string, Json>, d0: Driver, fuse: Dict<string, seq<int>>)
    requires AllTrueFuse(x, d0) && ParseTuples(x, FUSE_LENGTH) == Some(fuse) && ValidTuples(fuse, FUSE_LENGTH)
    requires fuse.keys == x.keys
    ensures Undoes(FuseChanges(fuse), d0)
  {
    var changes := FuseChanges(fuse);
    forall i | 0 <= i < |changes|
      ensures changes[i].slot in d0 && d0[changes[i].slot] == changes[i].value
    {
      FuseUndoesAt(x, d0, fuse, i);
    }
  }

  lemma FuseTouchesOnly(x: Dict<string, Json>, d0: Driver, fuse: Dict<string, seq<int>>, s: Slot)
    requires AllTrueFuse(x, d0) && ParseTuples(x, FUSE_LENGTH) == Some(fuse) && ValidTuples(fuse, FUSE_LENGTH)
    requires fuse.keys == x.keys && Touches(FuseChanges(fuse), s)
    ensures s.FuseOf? && x.Has(Str(s.dev))
  {
    var i :| 0 <= i < |FuseChanges(fuse)| && FuseChanges(fuse)[i].slot == s;
    FuseUndoesAt(x, d0, fuse, i);
  }

  lemma FuseUndoesAt(x: Dict<string, Json>, d0: Driver, fuse: Dict<string, seq<int>>, i: nat)
    requires AllTrueFuse(x, d0) && ParseTuples(x, FUSE_LENGTH) == Some(fuse) && ValidTuples(fuse, FUSE_LENGTH)
    requires fuse.keys == x.keys && i < |x.keys|
    ensures var c := FuseChanges(fuse)[i];
            c.slot in d0 && d0[c.slot] == c.value && c.slot.FuseOf? && x.Has(Str(c.slot.dev))
  {
    var k := x.keys[i];
    assert k in x.keys;
    FuseChangeTrue(x, d0, fuse, k);
  }

  lemma FuseTouches(x: Dict<string, Json>, fuse: Dict<string, seq<int>>, s: Slot)
    requires x.Valid() && fuse.keys == x.keys && ValidTuples(fuse, FUSE_LENGTH) && s.FuseOf? && x.Has(Str(s.dev))
    ensures Touches(FuseChanges(fuse), s)
  {
    var i := KeyOf(x, s.dev);
    assert FuseChanges(fuse)[i].slot == s;
  }

  lemma MasterUndoes(j: Json, d0: Driver, dev: int, masters: Dict<string, seq<int>>)
    requires TrueQos(j, d0, dev) && ParseMasters(j.fields) == Some(masters) && ValidTuples(masters, QOS_LENGTH)
    ensures Undoes(MasterChanges(dev, masters), d0)
    ensures forall s :: Touches(MasterChanges(dev, masters), s) <==>
                        s.QosOf? && s.dev == dev && j.fields.Has(Str(s.master))
  {
    TrueQosAccepted(j, d0, dev);
    var changes := MasterChanges(dev, masters);
    forall i | 0 <= i < |changes|
      ensures changes[i].slot in d0 && d0[changes[i].slot] == changes[i].value
      ensures changes[i].slot.QosOf? && changes[i].slot.dev == dev && j.fields.Has(Str(changes[i].slot.master))
    {
      var k := masters.keys[i];
      assert k in masters.keys && j.fields.Has(k);
      assert TrueTuple(masters.At(k), k, d0, dev);
    }
    forall s: Slot | s.QosOf? && s.dev == dev && j.fields.Has(Str(s.master))
      ensures Touches(changes, s)
    {
      var i := KeyOf(j.fields, s.master);
      assert changes[i].slot == s;
    }
  }

  lemma JoinedAt(a: seq<Change>, b: seq<Change>, s: Slot)
    ensures Touches(a + b, s) <==> Touches(a, s) || Touches(b, s)
  {
    if Touches(a, s) {
      var i :| 0 <= i < |a| && a[i].slot == s;
      assert (a + b)[i].slot == s;
    }
    if Touches(b, s) {
      var i :| 0 <= i < |b| && b[i].slot == s;
      assert (a + b)[|a| + i].slot == s;
    }
  }

  lemma Joined(a: seq<Change>, b: seq<Change>, d0: Driver)
    ensures Undoes(a, d0) && Undoes(b, d0) ==> Undoes(a + b, d0)
    ensures forall s :: Touches(a + b, s) <==> Touches(a, s) || Touches(b, s)
  {
    forall s: Slot
      ensures Touches(a + b, s) <==> Touches(a, s) || Touches(b, s)
    {
      JoinedAt(a, b, s);
    }
  }

  ghost predicate SomeTouches(parts: seq<seq<Change>>, s: Slot) {
    exists i :: 0 <= i < |parts| && Touches(parts[i], s)
  }

  lemma {:induction false} FlattenUndoes(parts: seq<seq<Change>>, d0: Driver)
    requires forall i :: 0 <= i < |parts| ==> Undoes(parts[i], d0)
    ensures Undoes(Flatten(parts), d0)
  {
    if parts != [] {
      FlattenUndoes(parts[..|parts| - 1], d0);
      Joined(Flatten(parts[..|parts| - 1]), parts[|parts| - 1], d0);
    }
  }

  lemma {:induction false} FlattenTouches(parts: seq<seq<Change>>, s: Slot)
    ensures Touches(Flatten(parts), s) <==> SomeTouches(parts, s)
  {
    if parts != [] {
      var init, last := parts[..|parts| - 1], parts[|parts| - 1];
      FlattenTouches(init, s);
      JoinedAt(Flatten(init), last, s);
      if SomeTouches(init, s) {
        var i :| 0 <= i < |init| && Touches(init[i], s);
        assert Touches(parts[i], s);
      }
      if SomeTouches(parts, s) && !Touches(last, s) {
        var i :| 0 <= i < |parts| && Touches(parts[i], s);
        assert Touches(init[i], s);
      }
    }
  }

  /** The changes of one device write back its true tuples. */
  lemma DeviceUndoes(q: Dict<string, Json>, d0: Driver, qos: Dict<string, Dict<string, seq<int>>>, k: string)
    requires AllTrueQos(q, d0) && ParseQos(q) == Some(qos) && ValidQos(qos) && q.Has(k)
    ensures qos.Has(k) && q.At(k).Obj? && Canonical(k) && ValidTuples(qos.At(k), QOS_LENGTH)
    ensures var changes, dev := MasterChanges(ParseInt(k).value, qos.At(k)), ParseInt(k).value;
            && Undoes(changes, d0)
            && forall s :: Touches(changes, s) <==> s.QosOf? && s.dev == dev && q.At(k).fields.Has(Str(s.master))
  {
    TrueQosFields(q, d0);
    QosAccepted(q);
    MasterUndoes(q.At(k), d0, ParseInt(k).value, qos.At(k));
  }

  lemma QosUndoes(q: Dict<string, Json>, d0: Driver, qos: Dict<string, Dict<string, seq<int>>>)
    requires AllTrueQos(q, d0) && ParseQos(q) == Some(qos) && ValidQos(qos) && qos.keys == q.keys
    ensures Undoes(QosChanges(qos), d0)
  {
    var parts := QosParts(qos);
    forall i | 0 <= i < |parts|
      ensures Undoes(parts[i], d0)
    {
      assert q.keys[i] in q.keys;
      DeviceUndoes(q, d0, qos, q.keys[i]);
    }
    FlattenUndoes(parts, d0);
  }

  lemma QosTouches(q: Dict<string, Json>, d0: Driver, qos: Dict<string, Dict<string, seq<int>>>, s: Slot)
    requires AllTrueQos(q, d0) && ParseQos(q) == Some(qos) && ValidQos(qos) && qos.keys == q.keys
    ensures Touches(QosChanges(qos), s) <==> s.QosOf? && SavesQos(q, s.dev, s.master)
  {
    var parts := QosParts(qos);
    FlattenTouches(parts, s);
    if SomeTouches(parts, s) {
      var i :| 0 <= i < |parts| && Touches(parts[i], s);
      assert q.keys[i] in q.keys;
      DeviceUndoes(q, d0, qos, q.keys[i]);
    }
    if s.QosOf? && SavesQos(q, s.dev, s.master) {
      var i := KeyOf(q, s.dev);
      DeviceUndoes(q, d0, qos, q.keys[i]);
      assert Touches(parts[i], s);
    }
  }

  /**
    * Reading back the file of a truthful baseline and restoring it sets exactly the saved slots to what
    * they were in d0, whatever the driver holds now, and leaves every other slot alone.
    */
  lemma RestoresSaved(b: Baseline, d0: Driver, printed: seq<string>, d: Driver, f: Faults)
    requires Truthful(b, d0) && d.Keys == d0.Keys && forall s :: s in d0 ==> s !in f.failedWrites
    ensures ParseState(Encode(b, printed)).Some? && ValidParsed(ParseState(Encode(b, printed)).value)
    ensures var r := WriteAll(d, RestoreChanges(ParseState(Encode(b, printed)).value), f);
            r.Keys == d0.Keys && forall s :: s in d0 ==> r[s] == if Saves(b, s) then d0[s] else d[s]
  {
    TruthfulIsShaped(b, d0);
    ShapedParses(b, printed);
    ParsedIsValid(Encode(b, printed));
    var p := ParseState(Encode(b, printed)).value;
    QosAccepted(b.qos);
    ChangesUndo(b, d0, p);
    WritesBack(d, RestoreChanges(p), f, d0);
  }

  lemma FuseTouchesIff(x: Dict<string, Json>, d0: Driver, fuse: Dict<string, seq<int>>)
    requires AllTrueFuse(x, d0) && ParseTuples(x, FUSE_LENGTH) == Some(fuse) && ValidTuples(fuse, FUSE_LENGTH)
    ensures Undoes(FuseChanges(fuse), d0)
    ensures forall s :: Touches(FuseChanges(fuse), s) <==> s.FuseOf? && x.Has(Str(s.dev))
  {
    TuplesAccepted(x, FUSE_LENGTH);
    FuseUndoes(x, d0, fuse);
    forall s: Slot
      ensures Touches(FuseChanges(fuse), s) <==> s.FuseOf? && x.Has(Str(s.dev))
    {
      if Touches(FuseChanges(fuse), s) {
        FuseTouchesOnly(x, d0, fuse, s);
      } else if s.FuseOf? && x.Has(Str(s.dev)) {
        FuseTouches(x, fuse, s);
      }
    }
  }

  lemma ChangesUndo(b: Baseline, d0: Driver, p: Parsed)
    requires Truthful(b, d0) && ValidParsed(p)
    requires ParseQos(b.qos) == Some(p.qos) && p.qos.keys == b.qos.keys
    requires ParseTuples(b.mata, MATA_LENGTH) == Some(p.mata) && ParseTuples(b.fuse, FUSE_LENGTH) == Some(p.fuse)
    ensures Undoes(RestoreChanges(p), d0) && forall s :: Touches(RestoreChanges(p), s) <==> Saves(b, s)
  {
    var bw, qos, fuse := BwChanges(p.mata), QosChanges(p.qos), FuseChanges(p.fuse);
    BwUndoes(b.mata, d0, p.mata);
    QosUndoes(b.qos, d0, p.qos);
    forall s: Slot
      ensures Touches(qos, s) <==> s.QosOf? && Saves(b, s)
    {
      QosTouches(b.qos, d0, p.qos, s);
    }
    FuseTouchesIff(b.fuse, d0, p.fuse);
    Joined(bw, qos, d0);
    Joined(bw + qos, fuse, d0);
  }
}
