/** Any number of applies keeps the first snapshot, and unset puts the original settings back. */
module QosRuns {
  import opened Prelude
  import opened Dictionaries
  import opened QosText
  import opened QosDriver
  import opened QosState
  import opened QosAccept
  import opened QosRestore
  import opened QosApply

  // ---- the two commands

  datatype Sys = Sys(driver: Driver, file: File)

  /** One run of the apply command, with the driver calls that fail during it. */
  datatype Cmd = Cmd(devs: seq<int>, priority: Priority, printed: seq<string>, faults: Faults)

  /** The dictionaries an apply writes: the loaded ones with the missing devices captured, or fresh ones. */
  function ApplyBaseline(file: File, d: Driver, devs: seq<int>, f: Faults): Outcome<Baseline, Error>
    requires ValidDriver(d)
  {
    match Load(file)
    case Raised(e) => Raised(e)
    case Ok(None) => Ok(Capture(EmptyBaseline(), d, devs, f))
    case Ok(Some(b)) => Ok(Capture(b, d, Missing(b, devs), f))
  }

  function Apply(s: Sys, c: Cmd): (r: Outcome<Sys, Error>)
    requires ValidDriver(s.driver)
    ensures r.Ok? ==> ValidDriver(r.value.driver)
  {
    match ApplyBaseline(s.file, s.driver, c.devs, c.faults)
    case Raised(e) => Raised(e)
    case Ok(b) => Ok(Sys(SetDevices(s.driver, c.devs, c.priority, c.faults), Holds(Encode(b, c.printed))))
  }

  /** The state after unset, and the error it exits with. A rejected file is removed too. */
  function Unset(s: Sys, f: Faults): (Sys, Option<Error>)
  {
    if s.file.Absent? then (s, Some(NoStateFile))
    else if s.file.Corrupt? || ParseState(s.file.json).None? then (s.(file := Absent), Some(StateRejected))
    else
      ParsedIsValid(s.file.json);
      (Sys(WriteAll(s.driver, RestoreChanges(ParseState(s.file.json).value), f), Absent), None)
  }

  // ---- what the tool may touch, and what it has saved

  /** The slots of a device that an apply may write. */
  predicate Controls(d0: Driver, s: Slot)
    requires ValidDriver(d0)
  {
    && (s.QosOf? ==> s.master in MASTERS)
    && (s.BwOf? ==> SdmaId(d0, s.dev, NO_FAULTS) == Some(s.mpamid))
  }

  const NO_FAULTS := Faults({}, {})

  /** d differs from d0 only where applies to the touched devices may have written. */
  ghost predicate Near(d0: Driver, d: Driver, touched: seq<int>)
    requires ValidDriver(d0)
  {
    && ValidDriver(d) && d.Keys == d0.Keys
    && (forall s: Slot :: s in d0 && !(s.dev in touched && Controls(d0, s)) ==> d[s] == d0[s])
    && (forall s: Slot :: s in d0 && s.QosOf? ==> d[s] == d0[s].(qos := d[s].qos))
  }

  ghost predicate Covers(b: Baseline, d0: Driver, dev: int)
    requires ValidDriver(d0)
  {
    forall s: Slot :: s in d0 && s.dev == dev && Controls(d0, s) ==> Saves(b, s)
  }

  /** The touched devices are complete, and a complete device has all its original settings saved. */
  ghost predicate Saved(b: Baseline, d0: Driver, touched: seq<int>)
    requires ValidDriver(d0)
  {
    && Truthful(b, d0)
    && (forall dev :: dev in touched ==> b.Complete(Str(dev)))
    && (forall dev :: b.Complete(Str(dev)) ==> Covers(b, d0, dev))
  }

  /** The original settings of a device can all be read. */
  ghost predicate Readable(d0: Driver, dev: int, f: Faults)
    requires ValidDriver(d0)
  {
    && (forall m :: m in MASTERS ==> Read(d0, QosOf(dev, m), f).Some?)
    && SdmaId(d0, dev, f).Some? && Read(d0, BwOf(dev, SdmaId(d0, dev, f).value), f).Some?
    && Read(d0, FuseOf(dev), f).Some?
  }

  // ---- one apply

  lemma NearAfter(d0: Driver, d: Driver, touched: seq<int>, devs: seq<int>, p: Priority, f: Faults)
    requires ValidDriver(d0) && Near(d0, d, touched)
    ensures Near(d0, SetDevices(d, devs, p, f), touched + devs)
  {
    var r := SetDevices(d, devs, p, f);
    forall s: Slot
      ensures s in r <==> s in d
      ensures s in d && !(s.dev in touched + devs && Controls(d0, s)) ==> r[s] == d0[s]
      ensures s in d && s.QosOf? ==> r[s] == d0[s].(qos := r[s].qos)
    {
      SetDevicesAt(d, devs, p, f, s);
    }
    assert r.Keys == d0.Keys;
  }

  /** A readable device is complete once captured, and every slot the tool controls is among what it saved. */
  lemma CapturesControlled(d0: Driver, d: Driver, dev: int, f: Faults, s: Slot)
    requires ValidDriver(d0) && ValidDriver(d) && AgreeOn(d, d0, dev) && Readable(d0, dev, f)
    requires s in d0 && s.dev == dev && Controls(d0, s)
    ensures Captures(d, s, f)
  {
    assert SDMA in MASTERS;
    var sdma := QosOf(dev, SDMA);
    assert sdma.dev == dev;
  }

  lemma CaptureCompletes(b: Baseline, d0: Driver, d: Driver, dev: int, f: Faults)
    requires ValidDriver(d0) && ValidDriver(d) && AgreeOn(d, d0, dev) && Readable(d0, dev, f)
    ensures CaptureOne(b, d, dev, f).Complete(Str(dev))
  {
    var fuse, bw := FuseOf(dev), BwOf(dev, SdmaId(d0, dev, f).value);
    CapturesControlled(d0, d, dev, f, fuse);
    CapturesControlled(d0, d, dev, f, bw);
  }

  lemma CaptureOneCovers(b: Baseline, d0: Driver, d: Driver, dev: int, f: Faults, x: int)
    requires ValidDriver(d0) && ValidDriver(d) && AgreeOn(d, d0, dev) && Readable(d0, dev, f)
    requires x != dev ==> Covers(b, d0, x)
    ensures Covers(CaptureOne(b, d, dev, f), d0, x)
  {
    forall s: Slot | s in d0 && s.dev == x && Controls(d0, s)
      ensures Saves(CaptureOne(b, d, dev, f), s)
    {
      CaptureOneSaves(b, d, dev, f, s);
      if x == dev {
        CapturesControlled(d0, d, dev, f, s);
      }
    }
  }

  lemma CaptureOneSaved(b: Baseline, d0: Driver, touched: seq<int>, d: Driver, dev: int, f: Faults)
    requires ValidDriver(d0) && ValidDriver(d) && Saved(b, d0, touched) && AgreeOn(d, d0, dev) && Readable(d0, dev, f)
    ensures Saved(CaptureOne(b, d, dev, f), d0, touched + [dev])
  {
    var r := CaptureOne(b, d, dev, f);
    CaptureOneTrue(b, d0, d, dev, f);
    CaptureCompletes(b, d0, d, dev, f);
    forall x | r.Complete(Str(x))
      ensures Covers(r, d0, x)
    {
      StrInjective(x, dev);
      CaptureOneCovers(b, d0, d, dev, f, x);
    }
    forall x | x in touched + [dev]
      ensures r.Complete(Str(x))
    {
      assert x == dev || b.Complete(Str(x));
    }
  }

  lemma {:induction false} CaptureSaved(b: Baseline, d0: Driver, touched: seq<int>, d: Driver, devs: seq<int>,
                                        f: Faults)
    requires ValidDriver(d0) && ValidDriver(d) && Saved(b, d0, touched)
    requires forall dev :: dev in devs ==> AgreeOn(d, d0, dev) && Readable(d0, dev, f)
    ensures Saved(Capture(b, d, devs, f), d0, touched + devs)
  {
    if devs == [] {
      assert touched + devs == touched;
    } else {
      SplitLast(devs);
      var init, last := devs[..|devs| - 1], devs[|devs| - 1];
      CaptureSaved(b, d0, touched, d, init, f);
      CaptureOneSaved(Capture(b, d, init, f), d0, touched + init, d, last, f);
      assert touched + init + [last] == touched + devs;
    }
  }

  // ---- runs of applies

  ghost predicate Stored(file: File, b: Baseline) {
    exists printed :: file == Holds(Encode(b, printed))
  }

  /** The invariant of every run: the file holds the original settings of the devices touched so far. */
  ghost predicate Inv(d0: Driver, s: Sys, touched: seq<int>)
    requires ValidDriver(d0)
  {
    && Near(d0, s.driver, touched)
    && ((touched == [] && Load(s.file) == Ok(None)) || exists b :: Stored(s.file, b) && Saved(b, d0, touched))
  }

  /** The devices an apply sees for the first time can be read. */
  ghost predicate FirstReads(d0: Driver, touched: seq<int>, c: Cmd)
    requires ValidDriver(d0)
  {
    forall dev :: dev in c.devs && dev !in touched ==> Readable(d0, dev, c.faults)
  }

  lemma UntouchedAgrees(d0: Driver, d: Driver, touched: seq<int>, dev: int)
    requires ValidDriver(d0) && Near(d0, d, touched) && dev !in touched
    ensures AgreeOn(d, d0, dev)
  {
  }

  lemma CompleteStillKnown(b: Baseline, d: Driver, devs: seq<int>, f: Faults, dev: int)
    requires ValidDriver(d) && b.Complete(Str(dev))
    ensures Capture(b, d, devs, f).Complete(Str(dev))
  {
    CompleteIff(b, dev);
    CaptureEntry(b, d, devs, f, OfQos, dev);
    CaptureEntry(b, d, devs, f, OfMata, dev);
    CaptureEntry(b, d, devs, f, OfFuse, dev);
    CompleteIff(Capture(b, d, devs, f), dev);
  }

  lemma BaselineSaved(d0: Driver, s: Sys, touched: seq<int>, c: Cmd) returns (b: Baseline)
    requires ValidDriver(d0) && Inv(d0, s, touched) && FirstReads(d0, touched, c)
    ensures ApplyBaseline(s.file, s.driver, c.devs, c.faults) == Ok(b) && Saved(b, d0, touched + c.devs)
  {
    var start, added := EmptyBaseline(), c.devs;
    if touched != [] || Load(s.file) != Ok(None) {
      start :| Stored(s.file, start) && Saved(start, d0, touched);
      var printed :| s.file == Holds(Encode(start, printed));
      LoadEncoded(start, printed);
      added := Missing(start, c.devs);
    }
    forall dev | dev in added
      ensures AgreeOn(s.driver, d0, dev) && Readable(d0, dev, c.faults)
    {
      UntouchedAgrees(d0, s.driver, touched, dev);
    }
    CaptureSaved(start, d0, touched, s.driver, added, c.faults);
    b := Capture(start, s.driver, added, c.faults);
    forall dev | dev in touched + c.devs
      ensures b.Complete(Str(dev))
    {
      if dev !in touched + added {
        CompleteStillKnown(start, s.driver, added, c.faults, dev);
      }
    }
  }

  /**
    * A device that a loaded file knows in all three dictionaries keeps its entries through every run of
    * applies, whatever the driver holds and whichever calls fail.
    */
  lemma {:induction false} CompleteStays(s: Sys, b: Baseline, cmds: seq<Cmd>, dev: int) returns (r: Baseline)
    requires ValidDriver(s.driver) && Load(s.file) == Ok(Some(b)) && b.Complete(Str(dev))
    ensures RunApplies(s, cmds).Ok? && Load(RunApplies(s, cmds).value.file) == Ok(Some(r))
    ensures forall kind :: Entry(r, kind, dev) == Entry(b, kind, dev)
  {
    r := b;
    if cmds != [] {
      var before := CompleteStays(s, b, cmds[..|cmds| - 1], dev);
      var t, c := RunApplies(s, cmds[..|cmds| - 1]).value, cmds[|cmds| - 1];
      var added := Missing(before, c.devs);
      CompleteIff(b, dev);
      CompleteIff(before, dev);
      r := Capture(before, t.driver, added, c.faults);
      forall kind
        ensures Entry(r, kind, dev) == Entry(b, kind, dev)
      {
        CaptureEntry(before, t.driver, added, c.faults, kind, dev);
      }
      LoadEncoded(r, c.printed);
    }
  }

  /**
    * Whatever can be read and written, a run of applies that starts without a usable file never fails, and
    * unset accepts the file it leaves and reads back all that was written.
    */
  lemma {:induction false} WrittenIsAccepted(d0: Driver, file: File, cmds: seq<Cmd>) returns (b: Baseline)
    requires ValidDriver(d0) && Load(file) == Ok(None)
    ensures RunApplies(Sys(d0, file), cmds).Ok? && Shaped(b)
    ensures var last := RunApplies(Sys(d0, file), cmds).value.file;
            if cmds == [] then last == file && b == EmptyBaseline()
            else
              && last == Holds(Encode(b, cmds[|cmds| - 1].printed))
              && ParseState(last.json).Some? && Unparse(ParseState(last.json).value) == last.json
  {
    b := EmptyBaseline();
    if cmds != [] {
      var init, c := cmds[..|cmds| - 1], cmds[|cmds| - 1];
      var before := WrittenIsAccepted(d0, file, init);
      var t := RunApplies(Sys(d0, file), init).value;
      var added := c.devs;
      if init != [] {
        LoadEncoded(before, init[|init| - 1].printed);
        added := Missing(before, c.devs);
      }
      CaptureShaped(before, t.driver, added, c.faults);
      b := Capture(before, t.driver, added, c.faults);
      EncodedAccepted(b, c.printed);
    }
  }

  lemma ApplyKeepsInv(d0: Driver, s: Sys, touched: seq<int>, c: Cmd)
    requires ValidDriver(d0) && Inv(d0, s, touched) && FirstReads(d0, touched, c)
    ensures Apply(s, c).Ok? && Inv(d0, Apply(s, c).value, touched + c.devs)
  {
    var b := BaselineSaved(d0, s, touched, c);
    NearAfter(d0, s.driver, touched, c.devs, c.priority, c.faults);
    assert Stored(Apply(s, c).value.file, b);
  }

  function RunApplies(s: Sys, cmds: seq<Cmd>): (r: Outcome<Sys, Error>)
    requires ValidDriver(s.driver)
    ensures r.Ok? ==> ValidDriver(r.value.driver)
  {
    if cmds == [] then Ok(s)
    else
      match RunApplies(s, cmds[..|cmds| - 1])
      case Raised(e) => Raised(e)
      case Ok(t) => Apply(t, cmds[|cmds| - 1])
  }

  function DevicesOf(cmds: seq<Cmd>): seq<int> {
    if cmds == [] then [] else DevicesOf(cmds[..|cmds| - 1]) + cmds[|cmds| - 1].devs
  }

  /** Each device can be read in the first apply that lists it; later reads and all writes may fail. */
  ghost predicate EachFirstRead(d0: Driver, cmds: seq<Cmd>)
    requires ValidDriver(d0)
  {
    forall i :: 0 <= i < |cmds| ==> FirstReads(d0, DevicesOf(cmds[..i]), cmds[i])
  }

  lemma {:induction false} RunKeepsInv(d0: Driver, file: File, cmds: seq<Cmd>)
    requires ValidDriver(d0) && Load(file) == Ok(None) && EachFirstRead(d0, cmds)
    ensures RunApplies(Sys(d0, file), cmds).Ok? && Inv(d0, RunApplies(Sys(d0, file), cmds).value, DevicesOf(cmds))
  {
    if cmds != [] {
      var init, last := cmds[..|cmds| - 1], cmds[|cmds| - 1];
      forall i | 0 <= i < |init|
        ensures FirstReads(d0, DevicesOf(init[..i]), init[i])
      {
        assert init[..i] == cmds[..i];
      }
      RunKeepsInv(d0, file, init);
      assert FirstReads(d0, DevicesOf(cmds[..|cmds| - 1]), cmds[|cmds| - 1]);
      ApplyKeepsInv(d0, RunApplies(Sys(d0, file), init).value, DevicesOf(init), last);
    }
  }

  /**
    * Unset after any number of applies, on any lists of devices with any priorities, gives back every
    * setting of every device and removes the state file.
    */
  lemma UnsetRestoresOriginal(d0: Driver, file: File, cmds: seq<Cmd>, f: Faults)
    requires ValidDriver(d0) && Load(file) == Ok(None) && cmds != [] && EachFirstRead(d0, cmds)
    requires forall s :: s in d0 ==> s !in f.failedWrites
    ensures RunApplies(Sys(d0, file), cmds).Ok?
    ensures Unset(RunApplies(Sys(d0, file), cmds).value, f) == (Sys(d0, Absent), None)
  {
    RunKeepsInv(d0, file, cmds);
    var b, printed := StoredBaseline(d0, file, cmds);
    UnsetRestores(d0, RunApplies(Sys(d0, file), cmds).value.driver, DevicesOf(cmds), b, printed, f);
  }

  lemma UnsetRestores(d0: Driver, d: Driver, touched: seq<int>, b: Baseline, printed: seq<string>, f: Faults)
    requires ValidDriver(d0) && Near(d0, d, touched) && Saved(b, d0, touched)
    requires forall s :: s in d0 ==> s !in f.failedWrites
    ensures Unset(Sys(d, Holds(Encode(b, printed))), f) == (Sys(d0, Absent), None)
  {
    RestoresSaved(b, d0, printed, d, f);
    var j := Encode(b, printed);
    UnsetAccepted(d, j, f);
    AllRestored(d0, d, touched, b, WriteAll(d, RestoreChanges(ParseState(j).value), f));
  }

  lemma UnsetAccepted(d: Driver, j: Json, f: Faults)
    requires ParseState(j).Some? && ValidParsed(ParseState(j).value)
    ensures Unset(Sys(d, Holds(j)), f) == (Sys(WriteAll(d, RestoreChanges(ParseState(j).value), f), Absent), None)
  {
  }

  lemma AllRestored(d0: Driver, d: Driver, touched: seq<int>, b: Baseline, r: Driver)
    requires ValidDriver(d0) && Near(d0, d, touched) && Saved(b, d0, touched)
    requires r.Keys == d0.Keys && forall s :: s in d0 ==> r[s] == if Saves(b, s) then d0[s] else d[s]
    ensures r == d0
  {
    forall x: Slot | x in d0
      ensures r[x] == d0[x]
    {
      if x.dev in touched && Controls(d0, x) {
        assert b.Complete(Str(x.dev)) && Covers(b, d0, x.dev);
      }
    }
  }

  lemma StoredBaseline(d0: Driver, file: File, cmds: seq<Cmd>) returns (b: Baseline, printed: seq<string>)
    requires ValidDriver(d0) && Load(file) == Ok(None) && cmds != [] && EachFirstRead(d0, cmds)
    ensures RunApplies(Sys(d0, file), cmds).Ok?
    ensures RunApplies(Sys(d0, file), cmds).value.file == Holds(Encode(b, printed)) && Saved(b, d0, DevicesOf(cmds))
  {
    RunKeepsInv(d0, file, cmds);
    var s := RunApplies(Sys(d0, file), cmds).value;
    var before := RunApplies(Sys(d0, file), cmds[..|cmds| - 1]).value;
    var c := cmds[|cmds| - 1];
    var base := ApplyBaseline(before.file, before.driver, c.devs, c.faults).value;
    LoadEncoded(base, c.printed);
    b :| Stored(s.file, b) && Saved(b, d0, DevicesOf(cmds));
    printed :| s.file == Holds(Encode(b, printed));
  }
}
