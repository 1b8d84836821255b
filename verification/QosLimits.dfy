/** When reads fail: exactly which snapshots survive, and which settings unset cannot put back. */
module QosLimits {
  import opened Prelude
  import opened Dictionaries
  import opened QosText
  import opened QosDriver
  import opened QosState
  import opened QosAccept
  import opened QosRestore
  import opened QosApply
  import opened QosRuns

  // ---- one apply, then unset

  /** The apply can read the slot, cannot write it, or writes what it holds already. */
  predicate SlotRecoverable(d0: Driver, c: Cmd, s: Slot)
    requires ValidDriver(d0) && s in d0
  {
    s.dev in c.devs && s in c.faults.failedReads && s !in c.faults.failedWrites ==>
      && (s.FuseOf? ==> d0[s] == Fuse(1, 1, 1))
      && (s.BwOf? && SdmaId(d0, s.dev, c.faults) == Some(s.mpamid) ==> d0[s] == Bandwidth(0, 1, 0))
  }

  ghost predicate Recoverable(d0: Driver, c: Cmd)
    requires ValidDriver(d0)
  {
    forall s: Slot :: s in d0 ==> SlotRecoverable(d0, c, s)
  }

  /** The driver after a first apply and an unset whose calls succeed. */
  function Undone(d0: Driver, c: Cmd, f: Faults): Driver
    requires ValidDriver(d0)
  {
    Unset(Apply(Sys(d0, Absent), c).value, f).0.driver
  }

  lemma UndoneAt(d0: Driver, c: Cmd, f: Faults)
    requires ValidDriver(d0) && forall s :: s in d0 ==> s !in f.failedWrites
    ensures Undone(d0, c, f).Keys == d0.Keys
    ensures forall s: Slot :: s in d0 ==>
              Undone(d0, c, f)[s] == if s.dev in c.devs && !Captures(d0, s, c.faults)
                                     then AfterApply(d0, c.priority, c.faults, s) else d0[s]
  {
    var b, d := Capture(EmptyBaseline(), d0, c.devs, c.faults), SetDevices(d0, c.devs, c.priority, c.faults);
    CaptureTrue(EmptyBaseline(), d0, d0, c.devs, c.faults);
    forall s: Slot
      ensures s in d <==> s in d0
      ensures s in d0 ==> d[s] == if s.dev in c.devs then AfterApply(d0, c.priority, c.faults, s) else d0[s]
      ensures Saves(b, s) <==> s.dev in c.devs && Captures(d0, s, c.faults)
    {
      SetDevicesAt(d0, c.devs, c.priority, c.faults, s);
      FreshCaptureSaves(d0, c.devs, c.faults, s);
    }
    assert d.Keys == d0.Keys;
    RestoresSaved(b, d0, c.printed, d, f);
    UnsetAccepted(d, Encode(b, c.printed), f);
  }

  lemma SlotUndoneIff(d0: Driver, c: Cmd, s: Slot)
    requires ValidDriver(d0) && s in d0
    ensures SlotRecoverable(d0, c, s) <==>
              s.dev !in c.devs || Captures(d0, s, c.faults) || AfterApply(d0, c.priority, c.faults, s) == d0[s]
  {
    assert SDMA in MASTERS;
  }

  /** A first apply is undone exactly when no unreadable setting was overwritten with something else. */
  lemma UndoneIffRecoverable(d0: Driver, c: Cmd, f: Faults)
    requires ValidDriver(d0) && forall s :: s in d0 ==> s !in f.failedWrites
    ensures Undone(d0, c, f) == d0 <==> Recoverable(d0, c)
  {
    UndoneAt(d0, c, f);
    var r := Undone(d0, c, f);
    forall s: Slot | s in d0
      ensures r[s] == d0[s] <==> SlotRecoverable(d0, c, s)
    {
      SlotUndoneIff(d0, c, s);
    }
    assert (forall s :: s in d0 ==> r[s] == d0[s]) ==> r == d0;
  }

  // ---- the first snapshot under later applies

  /** Later applies to the devices keep an entry of a device, whatever the driver then holds. */
  ghost predicate Keeps(b: Baseline, kind: Kind, devs: seq<int>, dev: int) {
    forall d: Driver, f: Faults :: ValidDriver(d) ==> KeepsAt(b, kind, devs, dev, d, f)
  }

  predicate KeepsAt(b: Baseline, kind: Kind, devs: seq<int>, dev: int, d: Driver, f: Faults)
    requires ValidDriver(d)
  {
    Entry(Capture(b, d, Missing(b, devs), f), kind, dev) == Entry(b, kind, dev)
  }

  /** In each dictionary, the entry of a listed device survives exactly when all three know the device. */
  lemma SnapshotKeptIff(b: Baseline, kind: Kind, devs: seq<int>, dev: int)
    ensures Keeps(b, kind, devs, dev) <==> dev !in devs || b.Complete(Str(dev))
  {
    if dev !in Missing(b, devs) {
      SnapshotKept(b, kind, devs, dev);
    } else {
      SnapshotLost(b, kind, devs, dev);
    }
  }

  lemma SnapshotKept(b: Baseline, kind: Kind, devs: seq<int>, dev: int)
    requires dev !in Missing(b, devs)
    ensures Keeps(b, kind, devs, dev)
  {
    forall d: Driver, f: Faults | ValidDriver(d)
      ensures KeepsAt(b, kind, devs, dev, d, f)
    {
      CaptureEntry(b, d, Missing(b, devs), f, kind, dev);
    }
  }

  /** A driver in which every setting of the device is x. */
  function Uniform(dev: int, x: int): (d: Driver)
    ensures ValidDriver(d)
  {
    map[QosOf(dev, SDMA) := Qos(0, x, 0, 0), BwOf(dev, 0) := Bandwidth(x, 0, 0), FuseOf(dev) := Fuse(x, 0, 0)]
  }

  lemma UniformDiffers(dev: int, kind: Kind, x: int, y: int)
    requires x != y
    ensures EntryFor(kind, Uniform(dev, x), dev, NO_FAULTS).Some?
    ensures EntryFor(kind, Uniform(dev, y), dev, NO_FAULTS).Some?
    ensures EntryFor(kind, Uniform(dev, x), dev, NO_FAULTS) != EntryFor(kind, Uniform(dev, y), dev, NO_FAULTS)
  {
    match kind
    case OfQos => MastersDiffer(dev, x, y);
    case OfMata =>
      assert Nums([0, x, 0, 0])[1] == Num(x) && Nums([0, y, 0, 0])[1] == Num(y);
    case OfFuse =>
      assert Nums([x, 0, 0])[0] == Num(x) && Nums([y, 0, 0])[0] == Num(y);
  }

  lemma MastersDiffer(dev: int, x: int, y: int)
    requires x != y
    ensures QosEntry(Uniform(dev, x), dev, MASTERS, NO_FAULTS) != QosEntry(Uniform(dev, y), dev, MASTERS, NO_FAULTS)
  {
    SdmaEntry(dev, x);
    SdmaEntry(dev, y);
    assert QosTuple(SDMA, Qos(0, x, 0, 0)).items[2] == Num(x) && QosTuple(SDMA, Qos(0, y, 0, 0)).items[2] == Num(y);
  }

  lemma SdmaEntry(dev: int, x: int)
    ensures var e := QosEntry(Uniform(dev, x), dev, MASTERS, NO_FAULTS);
            e.Has(Str(SDMA)) && e.At(Str(SDMA)) == QosTuple(SDMA, Qos(0, x, 0, 0))
  {
    var d := Uniform(dev, x);
    assert MASTERS[..3] == [AIV_DATA, AIV_INS, SDMA] && MASTERS[..3][..2] == [AIV_DATA, AIV_INS];
    assert QosEntry(d, dev, MASTERS, NO_FAULTS) == QosEntry(d, dev, MASTERS[..3], NO_FAULTS);
  }

  /** One of two drivers with different settings makes the entry change. */
  lemma SnapshotLost(b: Baseline, kind: Kind, devs: seq<int>, dev: int)
    requires dev in Missing(b, devs)
    ensures !Keeps(b, kind, devs, dev)
  {
    var added := Missing(b, devs);
    CaptureEntry(b, Uniform(dev, 0), added, NO_FAULTS, kind, dev);
    CaptureEntry(b, Uniform(dev, 1), added, NO_FAULTS, kind, dev);
    UniformDiffers(dev, kind, 0, 1);
    if KeepsAt(b, kind, devs, dev, Uniform(dev, 0), NO_FAULTS) {
      assert !KeepsAt(b, kind, devs, dev, Uniform(dev, 1), NO_FAULTS);
    }
  }

  // ---- two applies with an unreadable bandwidth

  lemma OneDevice(b: Baseline, d: Driver, dev: int, f: Faults)
    requires ValidDriver(d)
    ensures Capture(b, d, [dev], f) == CaptureOne(b, d, dev, f)
    ensures Missing(b, [dev]) == if b.Complete(Str(dev)) then [] else [dev]
  {
    assert [dev][..0] == [];
  }

  lemma PutTwice(k: string, v: Json, w: Json)
    ensures Empty().Put(k, v).Put(k, w) == Empty().Put(k, w)
  {
    assert map[k := v][k := w] == map[k := w];
  }

  /** The second apply captures everything again, over the first snapshot. */
  lemma RecapturesAll(d0: Driver, d1: Driver, dev: int, f: Faults)
    requires ValidDriver(d0) && ValidDriver(d1) && d1.Keys == d0.Keys
    requires MataEntry(d0, dev, f).None? && MataEntry(d1, dev, f).None?
    ensures var b := Capture(EmptyBaseline(), d0, [dev], f);
            Capture(b, d1, Missing(b, [dev]), f) == Capture(EmptyBaseline(), d1, [dev], f)
  {
    OneDevice(EmptyBaseline(), d0, dev, f);
    OneDevice(EmptyBaseline(), d1, dev, f);
    var b, k := CaptureOne(EmptyBaseline(), d0, dev, f), Str(dev);
    OneDevice(b, d1, dev, f);
    PutTwice(k, Obj(QosEntry(d0, dev, MASTERS, f)), Obj(QosEntry(d1, dev, MASTERS, f)));
    var before, after := FuseEntry(d0, dev, f), FuseEntry(d1, dev, f);
    if before.Some? && after.Some? {
      PutTwice(k, before.value, after.value);
    }
  }

  /** An apply does not change whether the bandwidth can be found and read. */
  lemma MataStaysUnread(d: Driver, dev: int, p: Priority, f: Faults)
    requires ValidDriver(d) && MataEntry(d, dev, f).None?
    ensures MataEntry(SetDevices(d, [dev], p, f), dev, f).None?
    ensures SetDevices(d, [dev], p, f).Keys == d.Keys
  {
    var r := SetDevices(d, [dev], p, f);
    forall s: Slot
      ensures s in r <==> s in d
      ensures s in d && s.QosOf? ==> r[s].mpamid == d[s].mpamid
    {
      SetDevicesAt(d, [dev], p, f, s);
    }
  }

  /**
    * When the bandwidth of a device cannot be read, a second apply writes the file that a first apply
    * to the changed driver would write, and unset gives back the QoS values of the first apply instead
    * of the original ones.
    */
  lemma SecondApplyLosesSnapshot(d0: Driver, dev: int, p1: Priority, p2: Priority, printed: seq<string>,
                                 f: Faults, ok: Faults, s: Slot)
    requires ValidDriver(d0) && MataEntry(d0, dev, f).None? && forall x :: x in d0 ==> x !in ok.failedWrites
    requires s in d0 && s.QosOf? && s.dev == dev && Captures(d0, s, f) && s !in f.failedWrites
    ensures var c1, c2 := Cmd([dev], p1, printed, f), Cmd([dev], p2, printed, f);
            var s1 := Apply(Sys(d0, Absent), c1).value;
            && Apply(s1, c2) == Apply(Sys(s1.driver, Absent), c2)
            && s in Unset(Apply(s1, c2).value, ok).0.driver
            && Unset(Apply(s1, c2).value, ok).0.driver[s] == d0[s].(qos := QosFor(p1, s.master))
  {
    var c1, c2 := Cmd([dev], p1, printed, f), Cmd([dev], p2, printed, f);
    var s1 := Apply(Sys(d0, Absent), c1).value;
    LoadEncoded(Capture(EmptyBaseline(), d0, [dev], f), printed);
    MataStaysUnread(d0, dev, p1, f);
    RecapturesAll(d0, s1.driver, dev, f);
    UndoneAt(s1.driver, c2, ok);
    SetDevicesAt(d0, [dev], p1, f, s);
  }
}
