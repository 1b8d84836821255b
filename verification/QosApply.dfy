/** What an apply does to each slot of the driver, and what it saves first. */
module QosApply {
  import opened Prelude
  import opened Dictionaries
  import opened QosText
  import opened QosDriver
  import opened QosState
  import opened QosAccept
  import opened QosRestore

  // ---- the driver after an apply, slot by slot

  /** The MPAM id of a device's SDMA master, if it can be read. */
  function SdmaId(d: Driver, dev: int, f: Faults): Option<int>
    requires ValidDriver(d)
  {
    if Read(d, QosOf(dev, SDMA), f).Some? then Some(d[QosOf(dev, SDMA)].mpamid) else None
  }

  /** What a slot of a listed device holds after the given masters have been set. */
  function AfterMasters(d: Driver, masters: seq<int>, p: Priority, f: Faults, s: Slot): Setting
    requires ValidDriver(d) && s in d
  {
    if s in f.failedWrites then d[s]
    else match s
      case QosOf(_, m) => if m in masters && s !in f.failedReads then d[s].(qos := QosFor(p, m)) else d[s]
      case BwOf(dev, mpamid) =>
        if SDMA in masters && SdmaId(d, dev, f) == Some(mpamid) then Bandwidth(0, 1, 0) else d[s]
      case FuseOf(_) => d[s]
  }

  lemma SetMasterAt(d: Driver, dev: int, m: int, p: Priority, f: Faults, s: Slot)
    requires ValidDriver(d)
    ensures s in SetMaster(d, dev, m, p, f) <==> s in d
    ensures s in d ==> SetMaster(d, dev, m, p, f)[s] == if s.dev == dev then AfterMasters(d, [m], p, f, s) else d[s]
  {
  }

  lemma {:induction false} SetMastersAt(d: Driver, dev: int, masters: seq<int>, p: Priority, f: Faults, s: Slot)
    requires ValidDriver(d)
    ensures s in SetMasters(d, dev, masters, p, f) <==> s in d
    ensures s in d ==>
              SetMasters(d, dev, masters, p, f)[s] == if s.dev == dev then AfterMasters(d, masters, p, f, s) else d[s]
  {
    if masters != [] {
      var init, m := masters[..|masters| - 1], masters[|masters| - 1];
      SplitLast(masters);
      SetMastersAt(d, dev, init, p, f, s);
      SetMastersAt(d, dev, init, p, f, QosOf(dev, SDMA));
      SetMasterAt(SetMasters(d, dev, init, p, f), dev, m, p, f, s);
    }
  }

  /** What a slot of a listed device holds after an apply. */
  function AfterApply(d: Driver, p: Priority, f: Faults, s: Slot): Setting
    requires ValidDriver(d) && s in d
  {
    if s.FuseOf? && s !in f.failedWrites then Fuse(1, 1, 1) else AfterMasters(d, MASTERS, p, f, s)
  }

  /** The driver after an apply, for every slot and every combination of failing calls. */
  lemma {:induction false} SetDevicesAt(d: Driver, devs: seq<int>, p: Priority, f: Faults, s: Slot)
    requires ValidDriver(d)
    ensures s in SetDevices(d, devs, p, f) <==> s in d
    ensures s in d ==> SetDevices(d, devs, p, f)[s] == if s.dev in devs then AfterApply(d, p, f, s) else d[s]
  {
    if devs != [] {
      var init, last := devs[..|devs| - 1], devs[|devs| - 1];
      SplitLast(devs);
      var before := SetDevices(d, init, p, f);
      SetDevicesAt(d, init, p, f, s);
      SetDevicesAt(d, init, p, f, QosOf(last, SDMA));
      SetMastersAt(Write(before, FuseOf(last), Fuse(1, 1, 1), f), last, MASTERS, p, f, s);
    }
  }

  // ---- what capturing a device saves

  /** Capturing the device reads the slot, with everything it needs to find it. */
  predicate Captures(d: Driver, s: Slot, f: Faults)
    requires ValidDriver(d)
  {
    && Read(d, s, f).Some?
    && (s.QosOf? ==> s.master in MASTERS)
    && (s.BwOf? ==> SdmaId(d, s.dev, f) == Some(s.mpamid))
  }

  /** d and d0 hold the same settings for the device. */
  ghost predicate AgreeOn(d: Driver, d0: Driver, dev: int) {
    forall s: Slot :: s.dev == dev ==> (s in d <==> s in d0) && (s in d ==> d[s] == d0[s])
  }

  lemma {:induction false} QosEntryHas(d: Driver, dev: int, masters: seq<int>, f: Faults, m: int)
    requires ValidDriver(d)
    ensures QosEntry(d, dev, masters, f).Has(Str(m)) <==> m in masters && Read(d, QosOf(dev, m), f).Some?
  {
    if masters != [] {
      SplitLast(masters);
      var init, last := masters[..|masters| - 1], masters[|masters| - 1];
      QosEntryHas(d, dev, init, f, m);
      StrInjective(m, last);
    }
  }

  lemma {:induction false} QosEntryTrue(d: Driver, d0: Driver, dev: int, masters: seq<int>, f: Faults)
    requires ValidDriver(d) && AgreeOn(d, d0, dev)
    ensures TrueQos(Obj(QosEntry(d, dev, masters, f)), d0, dev)
  {
    if masters != [] {
      QosEntryTrue(d, d0, dev, masters[..|masters| - 1], f);
      var s := QosOf(dev, masters[|masters| - 1]);
      IntRoundTrip(s.master);
      assert s in d ==> TrueMaster(QosTuple(s.master, d[s]), Str(s.master), d0, dev);
      var r := QosEntry(d, dev, masters, f);
      forall k | r.Has(k)
        ensures TrueMaster(r.At(k), k, d0, dev)
      {
        assert k == Str(s.master) || QosEntry(d, dev, masters[..|masters| - 1], f).Has(k);
      }
    }
  }

  lemma PutTrueQos(q: Dict<string, Json>, d0: Driver, dev: int, j: Json)
    requires AllTrueQos(q, d0) && TrueQos(j, d0, dev)
    ensures AllTrueQos(q.Put(Str(dev), j), d0)
  {
    IntRoundTrip(dev);
  }

  lemma PutTrueMata(m: Dict<string, Json>, d0: Driver, dev: int, j: Json)
    requires AllTrueMata(m, d0) && TrueMata(j, d0, dev)
    ensures AllTrueMata(m.Put(Str(dev), j), d0)
  {
    IntRoundTrip(dev);
  }

  lemma PutTrueFuse(x: Dict<string, Json>, d0: Driver, dev: int, j: Json)
    requires AllTrueFuse(x, d0) && TrueFuse(j, d0, dev)
    ensures AllTrueFuse(x.Put(Str(dev), j), d0)
  {
    IntRoundTrip(dev);
  }

  /** What is captured of a device that has the settings of v is true of v. */
  lemma EntryTrue(d: Driver, v: Driver, dev: int, f: Faults)
    requires ValidDriver(d) && AgreeOn(d, v, dev)
    ensures TrueQos(Obj(QosEntry(d, dev, MASTERS, f)), v, dev)
    ensures MataEntry(d, dev, f).Some? ==> TrueMata(MataEntry(d, dev, f).value, v, dev)
    ensures FuseEntry(d, dev, f).Some? ==> TrueFuse(FuseEntry(d, dev, f).value, v, dev)
  {
    QosEntryTrue(d, v, dev, MASTERS, f);
    if MataEntry(d, dev, f).Some? {
      var bw := BwOf(dev, d[QosOf(dev, SDMA)].mpamid);
      assert bw.dev == dev;
    }
    var fuse := FuseOf(dev);
    assert fuse.dev == dev;
  }

  /** Capturing a device that still has its original settings keeps the baseline truthful. */
  lemma CaptureOneTrue(b: Baseline, d0: Driver, d: Driver, dev: int, f: Faults)
    requires ValidDriver(d) && Truthful(b, d0) && AgreeOn(d, d0, dev)
    ensures Truthful(CaptureOne(b, d, dev, f), d0)
  {
    EntryTrue(d, d0, dev, f);
    PutTrueQos(b.qos, d0, dev, Obj(QosEntry(d, dev, MASTERS, f)));
    if MataEntry(d, dev, f).Some? {
      PutTrueMata(b.mata, d0, dev, MataEntry(d, dev, f).value);
    }
    if FuseEntry(d, dev, f).Some? {
      PutTrueFuse(b.fuse, d0, dev, FuseEntry(d, dev, f).value);
    }
  }

  lemma CaptureOneSaves(b: Baseline, d: Driver, dev: int, f: Faults, s: Slot)
    requires ValidDriver(d)
    ensures s.dev != dev ==> (Saves(CaptureOne(b, d, dev, f), s) <==> Saves(b, s))
    ensures s.dev == dev && Captures(d, s, f) ==> Saves(CaptureOne(b, d, dev, f), s)
    ensures Saves(CaptureOne(b, d, dev, f), s) ==> Saves(b, s) || (s.dev == dev && Captures(d, s, f))
  {
    StrInjective(s.dev, dev);
    if s.QosOf? && s.dev == dev {
      QosEntryHas(d, dev, MASTERS, f, s.master);
    }
  }

  lemma {:induction false} CaptureTrue(b: Baseline, d0: Driver, d: Driver, devs: seq<int>, f: Faults)
    requires ValidDriver(d) && Truthful(b, d0) && forall dev :: dev in devs ==> AgreeOn(d, d0, dev)
    ensures Truthful(Capture(b, d, devs, f), d0)
  {
    if devs != [] {
      SplitLast(devs);
      var init, last := devs[..|devs| - 1], devs[|devs| - 1];
      CaptureTrue(b, d0, d, init, f);
      CaptureOneTrue(Capture(b, d, init, f), d0, d, last, f);
    }
  }

  /** A first capture saves exactly the slots that it could read. */
  lemma {:induction false} FreshCaptureSaves(d: Driver, devs: seq<int>, f: Faults, s: Slot)
    requires ValidDriver(d)
    ensures Saves(Capture(EmptyBaseline(), d, devs, f), s) <==> s.dev in devs && Captures(d, s, f)
  {
    if devs != [] {
      SplitLast(devs);
      var init, last := devs[..|devs| - 1], devs[|devs| - 1];
      FreshCaptureSaves(d, init, f, s);
      CaptureOneSaves(Capture(EmptyBaseline(), d, init, f), d, last, f, s);
    }
  }

  // ---- the entries of one device

  /** The three dictionaries of a baseline. */
  datatype Kind = OfQos | OfMata | OfFuse

  function Part(b: Baseline, kind: Kind): Dict<string, Json> {
    match kind
    case OfQos => b.qos
    case OfMata => b.mata
    case OfFuse => b.fuse
  }

  /** What a dictionary holds for a device. */
  function Entry(b: Baseline, kind: Kind, dev: int): Option<Json> {
    if Part(b, kind).Has(Str(dev)) then Some(Part(b, kind).At(Str(dev))) else None
  }

  /** What capturing a device puts into a dictionary. */
  function EntryFor(kind: Kind, d: Driver, dev: int, f: Faults): Option<Json>
    requires ValidDriver(d)
  {
    match kind
    case OfQos => Some(Obj(QosEntry(d, dev, MASTERS, f)))
    case OfMata => MataEntry(d, dev, f)
    case OfFuse => FuseEntry(d, dev, f)
  }

  lemma CompleteIff(b: Baseline, dev: int)
    ensures b.Complete(Str(dev)) <==>
            Entry(b, OfQos, dev).Some? && Entry(b, OfMata, dev).Some? && Entry(b, OfFuse, dev).Some?
  {
  }

  lemma CaptureOneEntry(b: Baseline, d: Driver, dev: int, f: Faults, kind: Kind, x: int)
    requires ValidDriver(d)
    ensures Entry(CaptureOne(b, d, dev, f), kind, x)
         == if x == dev && EntryFor(kind, d, dev, f).Some? then EntryFor(kind, d, dev, f) else Entry(b, kind, x)
  {
    StrInjective(x, dev);
  }

  /** A listed device gets the entries that can be read now; everything else is kept. */
  lemma {:induction false} CaptureEntry(b: Baseline, d: Driver, devs: seq<int>, f: Faults, kind: Kind, dev: int)
    requires ValidDriver(d)
    ensures Entry(Capture(b, d, devs, f), kind, dev)
         == if dev in devs && EntryFor(kind, d, dev, f).Some? then EntryFor(kind, d, dev, f) else Entry(b, kind, dev)
  {
    if devs != [] {
      SplitLast(devs);
      var init, last := devs[..|devs| - 1], devs[|devs| - 1];
      CaptureEntry(b, d, init, f, kind, dev);
      CaptureOneEntry(Capture(b, d, init, f), d, last, f, kind, dev);
    }
  }
}
