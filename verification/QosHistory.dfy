/** Exactly which settings unset puts back after any run of applies, whichever calls fail in each of them. */
module QosHistory {
  import opened Prelude
  import opened Dictionaries
  import opened QosText
  import opened QosDriver
  import opened QosState
  import opened QosAccept
  import opened QosRestore
  import opened QosApply
  import opened QosRuns

  // ---- what a run does to one slot, without the driver and the file

  /** The command writes the slot: it is controlled, can be found, and the write does not fail. */
  predicate Sets(d0: Driver, c: Cmd, s: Slot)
    requires ValidDriver(d0)
  {
    && s.dev in c.devs && s !in c.faults.failedWrites
    && (s.QosOf? ==> s.master in MASTERS && s !in c.faults.failedReads)
    && (s.BwOf? ==> SdmaId(d0, s.dev, c.faults) == Some(s.mpamid))
  }

  /** What a command that sets the slot puts there. */
  function Puts(d0: Driver, c: Cmd, s: Slot): Setting
    requires ValidDriver(d0) && s in d0
  {
    match s
    case QosOf(_, m) => d0[s].(qos := QosFor(c.priority, m))
    case BwOf(_, _) => Bandwidth(0, 1, 0)
    case FuseOf(_) => Fuse(1, 1, 1)
  }

  /** The setting of a slot after the commands. */
  function Now(d0: Driver, cmds: seq<Cmd>, s: Slot): Setting
    requires ValidDriver(d0) && s in d0
  {
    if cmds == [] then d0[s]
    else
      var c := cmds[|cmds| - 1];
      if Sets(d0, c, s) then Puts(d0, c, s) else Now(d0, cmds[..|cmds| - 1], s)
  }

  /** For each dictionary, the command whose entry of a device is in the file. */
  datatype Marks = Marks(qos: Option<nat>, mata: Option<nat>, fuse: Option<nat>) {
    function At(kind: Kind): Option<nat> {
      match kind
      case OfQos => qos
      case OfMata => mata
      case OfFuse => fuse
    }

    predicate All() {
      qos.Some? && mata.Some? && fuse.Some?
    }
  }

  function NextMark(kind: Kind, d0: Driver, c: Cmd, dev: int, n: nat, before: Option<nat>): Option<nat>
    requires ValidDriver(d0)
  {
    if EntryFor(kind, d0, dev, c.faults).Some? then Some(n) else before
  }

  /** A command that lists the device renews what it can read, unless all three dictionaries know the device. */
  function MarksOf(d0: Driver, cmds: seq<Cmd>, dev: int): (r: Marks)
    requires ValidDriver(d0)
    ensures r.qos.Some? ==> r.qos.value < |cmds|
    ensures r.mata.Some? ==> r.mata.value < |cmds|
    ensures r.fuse.Some? ==> r.fuse.value < |cmds|
  {
    if cmds == [] then Marks(None, None, None)
    else
      var n, c := |cmds| - 1, cmds[|cmds| - 1];
      var before := MarksOf(d0, cmds[..n], dev);
      if dev !in c.devs || before.All() then before
      else Marks(NextMark(OfQos, d0, c, dev, n, before.qos), NextMark(OfMata, d0, c, dev, n, before.mata),
                 NextMark(OfFuse, d0, c, dev, n, before.fuse))
  }

  function KindOf(s: Slot): Kind {
    match s
    case QosOf(_, _) => OfQos
    case BwOf(_, _) => OfMata
    case FuseOf(_) => OfFuse
  }

  /** The number of commands that decide what unset leaves in a slot: those before its capture, or all. */
  function Horizon(d0: Driver, cmds: seq<Cmd>, s: Slot): (n: nat)
    requires ValidDriver(d0)
    ensures n <= |cmds|
  {
    var mark := MarksOf(d0, cmds, s.dev).At(KindOf(s));
    if mark.Some? && Captures(d0, s, cmds[mark.value].faults) then mark.value else |cmds|
  }

  // ---- the driver

  function DriverAfter(d0: Driver, cmds: seq<Cmd>): (d: Driver)
    requires ValidDriver(d0)
    ensures ValidDriver(d)
  {
    if cmds == [] then d0
    else
      var c := cmds[|cmds| - 1];
      SetDevices(DriverAfter(d0, cmds[..|cmds| - 1]), c.devs, c.priority, c.faults)
  }

  lemma {:induction false} DriverStaysNear(d0: Driver, cmds: seq<Cmd>)
    requires ValidDriver(d0)
    ensures Near(d0, DriverAfter(d0, cmds), DevicesOf(cmds))
  {
    if cmds != [] {
      var init, c := cmds[..|cmds| - 1], cmds[|cmds| - 1];
      DriverStaysNear(d0, init);
      NearAfter(d0, DriverAfter(d0, init), DevicesOf(init), c.devs, c.priority, c.faults);
    }
  }

  /** What can be found and read does not change. */
  lemma StaysReadable(d0: Driver, d: Driver, touched: seq<int>, dev: int, f: Faults)
    requires ValidDriver(d0) && Near(d0, d, touched)
    ensures SdmaId(d, dev, f) == SdmaId(d0, dev, f)
    ensures forall kind :: EntryFor(kind, d, dev, f).Some? <==> EntryFor(kind, d0, dev, f).Some?
    ensures forall s: Slot :: s.dev == dev ==> (Captures(d, s, f) <==> Captures(d0, s, f))
  {
    assert QosOf(dev, SDMA) in d <==> QosOf(dev, SDMA) in d0;
  }

  lemma {:induction false} DriverAfterAt(d0: Driver, cmds: seq<Cmd>, s: Slot)
    requires ValidDriver(d0)
    ensures s in DriverAfter(d0, cmds) <==> s in d0
    ensures s in d0 ==> DriverAfter(d0, cmds)[s] == Now(d0, cmds, s)
  {
    if cmds != [] {
      var init, c := cmds[..|cmds| - 1], cmds[|cmds| - 1];
      var d := DriverAfter(d0, init);
      DriverAfterAt(d0, init, s);
      DriverStaysNear(d0, init);
      StaysReadable(d0, d, DevicesOf(init), s.dev, c.faults);
      SetDevicesAt(d, c.devs, c.priority, c.faults, s);
      assert SDMA in MASTERS;
    }
  }

  // ---- the file

  /** What the file holds for a device after the commands. */
  function Recorded(kind: Kind, d0: Driver, cmds: seq<Cmd>, dev: int): Option<Json>
    requires ValidDriver(d0)
  {
    match MarksOf(d0, cmds, dev).At(kind)
    case None => None
    case Some(n) => EntryFor(kind, DriverAfter(d0, cmds[..n]), dev, cmds[n].faults)
  }

  ghost predicate Records(b: Baseline, d0: Driver, cmds: seq<Cmd>, dev: int)
    requires ValidDriver(d0)
  {
    forall kind :: Entry(b, kind, dev) == Recorded(kind, d0, cmds, dev)
  }

  /** A mark stands for an entry. */
  lemma {:induction false} MarkIsReadable(kind: Kind, d0: Driver, cmds: seq<Cmd>, dev: int)
    requires ValidDriver(d0) && MarksOf(d0, cmds, dev).At(kind).Some?
    ensures EntryFor(kind, d0, dev, cmds[MarksOf(d0, cmds, dev).At(kind).value].faults).Some?
  {
    var n := |cmds| - 1;
    if MarksOf(d0, cmds, dev).At(kind) != Some(n) {
      MarkIsReadable(kind, d0, cmds[..n], dev);
    }
  }

  lemma RecordedSome(kind: Kind, d0: Driver, cmds: seq<Cmd>, dev: int)
    requires ValidDriver(d0)
    ensures Recorded(kind, d0, cmds, dev).Some? <==> MarksOf(d0, cmds, dev).At(kind).Some?
  {
    var mark := MarksOf(d0, cmds, dev).At(kind);
    if mark.Some? {
      var before := cmds[..mark.value];
      MarkIsReadable(kind, d0, cmds, dev);
      DriverStaysNear(d0, before);
      StaysReadable(d0, DriverAfter(d0, before), DevicesOf(before), dev, cmds[mark.value].faults);
    }
  }

  lemma CompleteIffMarked(b: Baseline, d0: Driver, cmds: seq<Cmd>, dev: int)
    requires ValidDriver(d0) && Records(b, d0, cmds, dev)
    ensures b.Complete(Str(dev)) <==> MarksOf(d0, cmds, dev).All()
  {
    CompleteIff(b, dev);
    RecordedSome(OfQos, d0, cmds, dev);
    RecordedSome(OfMata, d0, cmds, dev);
    RecordedSome(OfFuse, d0, cmds, dev);
  }

  /** How the record of a device changes with one more command. */
  lemma RecordedNext(kind: Kind, d0: Driver, init: seq<Cmd>, c: Cmd, dev: int)
    requires ValidDriver(d0)
    ensures Recorded(kind, d0, init + [c], dev)
         == if dev in c.devs && !MarksOf(d0, init, dev).All() && EntryFor(kind, d0, dev, c.faults).Some?
            then EntryFor(kind, DriverAfter(d0, init), dev, c.faults) else Recorded(kind, d0, init, dev)
  {
    var cmds := init + [c];
    assert cmds[..|cmds| - 1] == init && cmds[..|init|] == init;
    var before := MarksOf(d0, init, dev).At(kind);
    if before.Some? {
      assert cmds[..before.value] == init[..before.value] && cmds[before.value] == init[before.value];
    }
  }

  /** The capture of one more command brings the record up to date. */
  lemma RecordNext(b: Baseline, d0: Driver, init: seq<Cmd>, c: Cmd, added: seq<int>, dev: int, kind: Kind)
    requires ValidDriver(d0) && Records(b, d0, init, dev)
    requires dev in added <==> dev in c.devs && !b.Complete(Str(dev))
    ensures Entry(Capture(b, DriverAfter(d0, init), added, c.faults), kind, dev)
         == Recorded(kind, d0, init + [c], dev)
  {
    var d := DriverAfter(d0, init);
    CompleteIffMarked(b, d0, init, dev);
    DriverStaysNear(d0, init);
    StaysReadable(d0, d, DevicesOf(init), dev, c.faults);
    CaptureEntry(b, d, added, c.faults, kind, dev);
    RecordedNext(kind, d0, init, c, dev);
  }

  ghost predicate AllRecords(b: Baseline, d0: Driver, cmds: seq<Cmd>)
    requires ValidDriver(d0)
  {
    Shaped(b) && forall dev :: Records(b, d0, cmds, dev)
  }

  /** The devices an apply captures: those listed that the baseline does not know completely. */
  lemma CaptureRecords(b: Baseline, d0: Driver, init: seq<Cmd>, c: Cmd, added: seq<int>)
    requires ValidDriver(d0) && AllRecords(b, d0, init)
    requires forall dev :: dev in added <==> dev in c.devs && !b.Complete(Str(dev))
    ensures AllRecords(Capture(b, DriverAfter(d0, init), added, c.faults), d0, init + [c])
  {
    CaptureShaped(b, DriverAfter(d0, init), added, c.faults);
    forall dev, kind
      ensures Entry(Capture(b, DriverAfter(d0, init), added, c.faults), kind, dev)
           == Recorded(kind, d0, init + [c], dev)
    {
      assert Records(b, d0, init, dev);
      RecordNext(b, d0, init, c, added, dev, kind);
    }
  }

  lemma DriverNext(d0: Driver, init: seq<Cmd>, c: Cmd)
    requires ValidDriver(d0)
    ensures DriverAfter(d0, init + [c]) == SetDevices(DriverAfter(d0, init), c.devs, c.priority, c.faults)
  {
    assert (init + [c])[..|init|] == init;
  }

  lemma ApplyRecords(d0: Driver, file: File, init: seq<Cmd>, c: Cmd, before: Baseline) returns (b: Baseline)
    requires ValidDriver(d0) && AllRecords(before, d0, init)
    requires Load(file) == Ok(Some(before)) || (Load(file) == Ok(None) && before == EmptyBaseline())
    ensures Apply(Sys(DriverAfter(d0, init), file), c)
            == Ok(Sys(DriverAfter(d0, init + [c]), Holds(Encode(b, c.printed))))
    ensures AllRecords(b, d0, init + [c])
  {
    var added := if Load(file) == Ok(None) then c.devs else Missing(before, c.devs);
    CaptureRecords(before, d0, init, c, added);
    DriverNext(d0, init, c);
    b := Capture(before, DriverAfter(d0, init), added, c.faults);
  }

  lemma {:induction false} RunRecords(d0: Driver, file: File, cmds: seq<Cmd>) returns (b: Baseline)
    requires ValidDriver(d0) && Load(file) == Ok(None)
    ensures AllRecords(b, d0, cmds)
    ensures var last := if cmds == [] then file else Holds(Encode(b, cmds[|cmds| - 1].printed));
            RunApplies(Sys(d0, file), cmds) == Ok(Sys(DriverAfter(d0, cmds), last))
    ensures cmds == [] ==> b == EmptyBaseline()
  {
    b := EmptyBaseline();
    if cmds != [] {
      var init, c := cmds[..|cmds| - 1], cmds[|cmds| - 1];
      SplitLast(cmds);
      var before := RunRecords(d0, file, init);
      var last := RunApplies(Sys(d0, file), init).value.file;
      if init != [] {
        LoadEncoded(before, init[|init| - 1].printed);
      }
      b := ApplyRecords(d0, last, init, c, before);
    }
  }

  // ---- unset

  /** The settings as they were when each entry was captured. */
  ghost function Snapshot(d0: Driver, cmds: seq<Cmd>): (v: Driver)
    requires ValidDriver(d0)
  {
    map s: Slot | s in d0 :: CapturedAs(d0, cmds, s)
  }

  function CapturedAs(d0: Driver, cmds: seq<Cmd>, s: Slot): Setting
    requires ValidDriver(d0) && s in d0
  {
    match MarksOf(d0, cmds, s.dev).At(KindOf(s))
    case None => d0[s]
    case Some(n) => Now(d0, cmds[..n], s)
  }

  /** The driver at the capture of an entry and the snapshot agree where the entry looks. */
  lemma SnapshotAgrees(d0: Driver, cmds: seq<Cmd>, s: Slot, n: nat)
    requires ValidDriver(d0) && MarksOf(d0, cmds, s.dev).At(KindOf(s)) == Some(n)
    ensures s in DriverAfter(d0, cmds[..n]) <==> s in Snapshot(d0, cmds)
    ensures s in Snapshot(d0, cmds) ==> DriverAfter(d0, cmds[..n])[s] == Snapshot(d0, cmds)[s]
  {
    DriverAfterAt(d0, cmds[..n], s);
  }

  ghost predicate TrueEntry(kind: Kind, j: Json, v: Driver, dev: int) {
    match kind
    case OfQos => TrueQos(j, v, dev)
    case OfMata => TrueMata(j, v, dev)
    case OfFuse => TrueFuse(j, v, dev)
  }

  /** What a capture reads is true of the driver it reads. */
  lemma EntryOfDriver(kind: Kind, d: Driver, dev: int, f: Faults)
    requires ValidDriver(d) && EntryFor(kind, d, dev, f).Some?
    ensures TrueEntry(kind, EntryFor(kind, d, dev, f).value, d, dev)
  {
    EntryTrue(d, d, dev, f);
  }

  /** Truth of an entry depends on the slots of its kind only. */
  lemma TruthMoves(kind: Kind, j: Json, d: Driver, v: Driver, dev: int)
    requires TrueEntry(kind, j, d, dev)
    requires forall s: Slot :: s.dev == dev && KindOf(s) == kind && s in d ==> s in v && v[s] == d[s]
    ensures TrueEntry(kind, j, v, dev)
  {
    match kind
    case OfQos =>
      forall k | j.fields.Has(k)
        ensures TrueMaster(j.fields.At(k), k, v, dev)
      {
        assert TrueMaster(j.fields.At(k), k, d, dev);
        var s := QosOf(dev, ParseInt(k).value);
        assert s.dev == dev && KindOf(s) == kind;
      }
    case OfMata =>
      var s := BwOf(dev, j.items[0].n);
      assert s.dev == dev && KindOf(s) == kind;
    case OfFuse =>
      var s := FuseOf(dev);
      assert s.dev == dev && KindOf(s) == kind;
  }

  /** An entry of the file is a true setting of the snapshot. */
  lemma RecordTrue(b: Baseline, d0: Driver, cmds: seq<Cmd>, kind: Kind, k: string)
    requires ValidDriver(d0) && Shaped(b) && (forall dev :: Records(b, d0, cmds, dev)) && Part(b, kind).Has(k)
    ensures Canonical(k) && TrueEntry(kind, Part(b, kind).At(k), Snapshot(d0, cmds), ParseInt(k).value)
  {
    var dev := ParseInt(k).value;
    assert Records(b, d0, cmds, dev);
    assert Entry(b, kind, dev) == Recorded(kind, d0, cmds, dev);
    var n := MarksOf(d0, cmds, dev).At(kind).value;
    var d := DriverAfter(d0, cmds[..n]);
    EntryOfDriver(kind, d, dev, cmds[n].faults);
    forall s: Slot | s.dev == dev && KindOf(s) == kind && s in d
      ensures s in Snapshot(d0, cmds) && Snapshot(d0, cmds)[s] == d[s]
    {
      SnapshotAgrees(d0, cmds, s, n);
    }
    TruthMoves(kind, Part(b, kind).At(k), d, Snapshot(d0, cmds), dev);
  }

  lemma RecordsTruthful(b: Baseline, d0: Driver, cmds: seq<Cmd>)
    requires ValidDriver(d0) && Shaped(b) && forall dev :: Records(b, d0, cmds, dev)
    ensures Truthful(b, Snapshot(d0, cmds))
  {
    var v := Snapshot(d0, cmds);
    forall k | b.qos.Has(k)
      ensures Canonical(k) && TrueQos(b.qos.At(k), v, ParseInt(k).value)
    {
      RecordTrue(b, d0, cmds, OfQos, k);
    }
    forall k | b.mata.Has(k)
      ensures Canonical(k) && TrueMata(b.mata.At(k), v, ParseInt(k).value)
    {
      RecordTrue(b, d0, cmds, OfMata, k);
    }
    forall k | b.fuse.Has(k)
      ensures Canonical(k) && TrueFuse(b.fuse.At(k), v, ParseInt(k).value)
    {
      RecordTrue(b, d0, cmds, OfFuse, k);
    }
  }

  /** The file saves exactly the slots that the command of their mark could read. */
  lemma RecordsSave(b: Baseline, d0: Driver, cmds: seq<Cmd>, s: Slot)
    requires ValidDriver(d0) && Records(b, d0, cmds, s.dev)
    ensures var mark := MarksOf(d0, cmds, s.dev).At(KindOf(s));
            Saves(b, s) <==> mark.Some? && Captures(d0, s, cmds[mark.value].faults)
  {
    var mark := MarksOf(d0, cmds, s.dev).At(KindOf(s));
    assert Entry(b, KindOf(s), s.dev) == Recorded(KindOf(s), d0, cmds, s.dev);
    if mark.Some? {
      var before, f := cmds[..mark.value], cmds[mark.value].faults;
      var d := DriverAfter(d0, before);
      DriverStaysNear(d0, before);
      StaysReadable(d0, d, DevicesOf(before), s.dev, f);
      if s.QosOf? {
        QosEntryHas(d, s.dev, MASTERS, f, s.master);
      }
    }
  }

  lemma LeftIs(b: Baseline, d0: Driver, cmds: seq<Cmd>, s: Slot)
    requires ValidDriver(d0) && s in d0 && Records(b, d0, cmds, s.dev)
    ensures s in Snapshot(d0, cmds) && s in DriverAfter(d0, cmds)
    ensures Now(d0, cmds[..Horizon(d0, cmds, s)], s)
            == if Saves(b, s) then Snapshot(d0, cmds)[s] else DriverAfter(d0, cmds)[s]
  {
    DriverAfterAt(d0, cmds, s);
    RecordsSave(b, d0, cmds, s);
    assert cmds[..|cmds|] == cmds;
  }

  lemma SameSlots(d0: Driver, cmds: seq<Cmd>)
    requires ValidDriver(d0)
    ensures DriverAfter(d0, cmds).Keys == Snapshot(d0, cmds).Keys == d0.Keys
  {
    DriverStaysNear(d0, cmds);
  }

  lemma UnsetFile(b: Baseline, d0: Driver, cmds: seq<Cmd>, printed: seq<string>, ok: Faults)
    requires ValidDriver(d0) && Shaped(b) && forall dev :: Records(b, d0, cmds, dev)
    requires forall s :: s in d0 ==> s !in ok.failedWrites
    ensures var r := Unset(Sys(DriverAfter(d0, cmds), Holds(Encode(b, printed))), ok);
            && r.0.file == Absent && r.1 == None && r.0.driver.Keys == d0.Keys
            && forall s :: s in d0 ==> r.0.driver[s] == Now(d0, cmds[..Horizon(d0, cmds, s)], s)
  {
    var v, d := Snapshot(d0, cmds), DriverAfter(d0, cmds);
    RecordsTruthful(b, d0, cmds);
    SameSlots(d0, cmds);
    RestoresSaved(b, v, printed, d, ok);
    UnsetAccepted(d, Encode(b, printed), ok);
    forall s: Slot | s in d0
      ensures Now(d0, cmds[..Horizon(d0, cmds, s)], s) == if Saves(b, s) then v[s] else d[s]
    {
      assert Records(b, d0, cmds, s.dev);
      LeftIs(b, d0, cmds, s);
    }
  }

  /**
   After any run, whichever calls fail in each command, unset leaves in every slot what the commands up
   to the capture in the file had made of it, or all commands if that capture could not read it.
   */
  lemma UnsetLeaves(d0: Driver, file: File, cmds: seq<Cmd>, ok: Faults)
    requires ValidDriver(d0) && Load(file) == Ok(None) && cmds != []
    requires forall s :: s in d0 ==> s !in ok.failedWrites
    ensures RunApplies(Sys(d0, file), cmds).Ok?
    ensures var r := Unset(RunApplies(Sys(d0, file), cmds).value, ok);
            && r.0.file == Absent && r.1 == None && r.0.driver.Keys == d0.Keys
            && forall s :: s in d0 ==> r.0.driver[s] == Now(d0, cmds[..Horizon(d0, cmds, s)], s)
  {
    var b := RunRecords(d0, file, cmds);
    UnsetFile(b, d0, cmds, cmds[|cmds| - 1].printed, ok);
  }

  // ---- when that is the original setting

  /** Command i is the last of the first n that sets the slot. */
  ghost predicate LastSet(d0: Driver, cmds: seq<Cmd>, n: nat, s: Slot, i: nat)
    requires ValidDriver(d0) && n <= |cmds|
  {
    i < n && Sets(d0, cmds[i], s) && forall k :: i < k < n ==> !Sets(d0, cmds[k], s)
  }

  /** Of the commands that decide about the slot none sets it, or the last one that does puts what it held. */
  ghost predicate Harmless(d0: Driver, cmds: seq<Cmd>, s: Slot)
    requires ValidDriver(d0) && s in d0
  {
    var n := Horizon(d0, cmds, s);
    forall i :: 0 <= i < n && LastSet(d0, cmds, n, s, i) ==> Puts(d0, cmds[i], s) == d0[s]
  }

  lemma {:induction false} NowIs(d0: Driver, cmds: seq<Cmd>, n: nat, s: Slot)
    requires ValidDriver(d0) && s in d0 && n <= |cmds|
    ensures (forall i :: 0 <= i < n ==> !Sets(d0, cmds[i], s)) ==> Now(d0, cmds[..n], s) == d0[s]
    ensures forall i :: 0 <= i < n && LastSet(d0, cmds, n, s, i) ==> Now(d0, cmds[..n], s) == Puts(d0, cmds[i], s)
  {
    if n > 0 {
      assert cmds[..n][..n - 1] == cmds[..n - 1];
      NowIs(d0, cmds, n - 1, s);
      forall i | 0 <= i < n && LastSet(d0, cmds, n, s, i)
        ensures Now(d0, cmds[..n], s) == Puts(d0, cmds[i], s)
      {
        if i < n - 1 {
          assert !Sets(d0, cmds[n - 1], s);
          assert LastSet(d0, cmds, n - 1, s, i);
        }
      }
    }
  }

  lemma {:induction false} SomeLastSet(d0: Driver, cmds: seq<Cmd>, n: nat, s: Slot, j: nat) returns (i: nat)
    requires ValidDriver(d0) && j < n <= |cmds| && Sets(d0, cmds[j], s)
    ensures LastSet(d0, cmds, n, s, i)
  {
    if Sets(d0, cmds[n - 1], s) {
      i := n - 1;
    } else {
      i := SomeLastSet(d0, cmds, n - 1, s, j);
    }
  }

  lemma HarmlessIff(d0: Driver, cmds: seq<Cmd>, s: Slot)
    requires ValidDriver(d0) && s in d0
    ensures Harmless(d0, cmds, s) <==> Now(d0, cmds[..Horizon(d0, cmds, s)], s) == d0[s]
  {
    var n := Horizon(d0, cmds, s);
    NowIs(d0, cmds, n, s);
    if j :| 0 <= j < n && Sets(d0, cmds[j], s) {
      var i := SomeLastSet(d0, cmds, n, s, j);
    }
  }

  lemma SameDriver(r: Driver, d0: Driver)
    requires r.Keys == d0.Keys
    ensures r == d0 <==> forall s :: s in d0 ==> r[s] == d0[s]
  {
  }

  /** Any run of applies is undone by unset if and only if it is harmless for every slot. */
  lemma RunUndoneIff(d0: Driver, file: File, cmds: seq<Cmd>, ok: Faults)
    requires ValidDriver(d0) && Load(file) == Ok(None) && cmds != []
    requires forall s :: s in d0 ==> s !in ok.failedWrites
    ensures RunApplies(Sys(d0, file), cmds).Ok?
    ensures Unset(RunApplies(Sys(d0, file), cmds).value, ok).0.driver == d0
            <==> forall s :: s in d0 ==> Harmless(d0, cmds, s)
  {
    UnsetLeaves(d0, file, cmds, ok);
    var r := Unset(RunApplies(Sys(d0, file), cmds).value, ok).0.driver;
    SameDriver(r, d0);
    forall s: Slot | s in d0
      ensures r[s] == d0[s] <==> Harmless(d0, cmds, s)
    {
      HarmlessIff(d0, cmds, s);
    }
  }

  // ---- devices that could be read at first sight

  /** Command i is the first that lists the device. */
  ghost predicate FirstListed(cmds: seq<Cmd>, i: nat, dev: int) {
    i < |cmds| && dev in cmds[i].devs && forall k :: 0 <= k < i ==> dev !in cmds[k].devs
  }

  lemma {:induction false} NotListedNoMark(d0: Driver, cmds: seq<Cmd>, dev: int)
    requires ValidDriver(d0) && forall k :: 0 <= k < |cmds| ==> dev !in cmds[k].devs
    ensures MarksOf(d0, cmds, dev) == Marks(None, None, None)
  {
    if cmds != [] {
      NotListedNoMark(d0, cmds[..|cmds| - 1], dev);
    }
  }

  /** All three dictionaries can get an entry for the device. */
  predicate Whole(d0: Driver, dev: int, f: Faults)
    requires ValidDriver(d0)
  {
    MataEntry(d0, dev, f).Some? && FuseEntry(d0, dev, f).Some?
  }

  lemma {:induction false} FirstMarksStay(d0: Driver, cmds: seq<Cmd>, i: nat, dev: int)
    requires ValidDriver(d0) && FirstListed(cmds, i, dev) && Whole(d0, dev, cmds[i].faults)
    ensures MarksOf(d0, cmds, dev) == Marks(Some(i), Some(i), Some(i))
  {
    var n := |cmds| - 1;
    if i < n {
      FirstMarksStay(d0, cmds[..n], i, dev);
    } else {
      NotListedNoMark(d0, cmds[..n], dev);
    }
  }

  lemma WholeIsHarmless(d0: Driver, cmds: seq<Cmd>, i: nat, s: Slot)
    requires ValidDriver(d0) && s in d0 && FirstListed(cmds, i, s.dev) && Whole(d0, s.dev, cmds[i].faults)
    requires Captures(d0, s, cmds[i].faults) || forall k :: 0 <= k < |cmds| ==> !Sets(d0, cmds[k], s)
    ensures Harmless(d0, cmds, s)
  {
    FirstMarksStay(d0, cmds, i, s.dev);
  }

  /**
   A device that was whole in the first command that lists it gets back every setting that this command
   could read and every one that no command sets, whatever is done to other devices and whichever calls
   fail later.
   */
  lemma WholeIsRestored(d0: Driver, file: File, cmds: seq<Cmd>, ok: Faults, i: nat, s: Slot)
    requires ValidDriver(d0) && Load(file) == Ok(None) && forall x :: x in d0 ==> x !in ok.failedWrites
    requires s in d0 && FirstListed(cmds, i, s.dev) && Whole(d0, s.dev, cmds[i].faults)
    requires Captures(d0, s, cmds[i].faults) || forall k :: 0 <= k < |cmds| ==> !Sets(d0, cmds[k], s)
    ensures RunApplies(Sys(d0, file), cmds).Ok?
    ensures var r := Unset(RunApplies(Sys(d0, file), cmds).value, ok).0.driver;
            s in r && r[s] == d0[s]
  {
    WholeIsHarmless(d0, cmds, i, s);
    HarmlessIff(d0, cmds, s);
    UnsetLeaves(d0, file, cmds, ok);
  }

  /** A slot of a readable device that a capture passes over is none that a command sets. */
  lemma NotCapturedNotSet(d0: Driver, f: Faults, c: Cmd, s: Slot)
    requires ValidDriver(d0) && s in d0 && Readable(d0, s.dev, f) && !Captures(d0, s, f)
    ensures !Sets(d0, c, s)
  {
    assert SDMA in MASTERS;
  }

  /** A device that could be read by the first command that lists it gets every setting back. */
  lemma ReadableIsRestored(d0: Driver, file: File, cmds: seq<Cmd>, ok: Faults, i: nat, s: Slot)
    requires ValidDriver(d0) && Load(file) == Ok(None) && forall x :: x in d0 ==> x !in ok.failedWrites
    requires s in d0 && FirstListed(cmds, i, s.dev) && Readable(d0, s.dev, cmds[i].faults)
    ensures RunApplies(Sys(d0, file), cmds).Ok?
    ensures var r := Unset(RunApplies(Sys(d0, file), cmds).value, ok).0.driver;
            s in r && r[s] == d0[s]
  {
    if !Captures(d0, s, cmds[i].faults) {
      forall k | 0 <= k < |cmds|
        ensures !Sets(d0, cmds[k], s)
      {
        NotCapturedNotSet(d0, cmds[i].faults, cmds[k], s);
      }
    }
    WholeIsRestored(d0, file, cmds, ok, i, s);
  }
}
