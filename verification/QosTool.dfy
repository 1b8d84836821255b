/** The commands as the tool runs them: loops over devices, masters and file entries. */
module QosTool {
  import opened Prelude
  import opened Dictionaries
  import opened QosText
  import opened QosDriver
  import opened QosState
  import opened QosRuns

  // ---- capturing

  method CaptureMasters(d: Driver, dev: int, f: Faults) returns (r: Dict<string, Json>)
    requires ValidDriver(d)
    ensures r == QosEntry(d, dev, MASTERS, f)
  {
    r := Empty();
    for i := 0 to |MASTERS|
      invariant r == QosEntry(d, dev, MASTERS[..i], f)
    {
      var m := MASTERS[i];
      TakeNext(MASTERS, i);
      var q := Read(d, QosOf(dev, m), f);
      if q.Some? {
        r := r.Put(Str(m), QosTuple(m, q.value));
      }
    }
    assert MASTERS[..|MASTERS|] == MASTERS;
  }

  method CaptureOriginalQos(d: Driver, devs: seq<int>, f: Faults) returns (r: Dict<string, Json>)
    requires ValidDriver(d)
    ensures r == Capture(EmptyBaseline(), d, devs, f).qos
  {
    r := Empty();
    for i := 0 to |devs|
      invariant r == Capture(EmptyBaseline(), d, devs[..i], f).qos
    {
      TakeNext(devs, i);
      var masters := CaptureMasters(d, devs[i], f);
      r := r.Put(Str(devs[i]), Obj(masters));
    }
    assert devs[..|devs|] == devs;
  }

  method CaptureOriginalMata(d: Driver, devs: seq<int>, f: Faults) returns (r: Dict<string, Json>)
    requires ValidDriver(d)
    ensures r == Capture(EmptyBaseline(), d, devs, f).mata
  {
    r := Empty();
    for i := 0 to |devs|
      invariant r == Capture(EmptyBaseline(), d, devs[..i], f).mata
    {
      TakeNext(devs, i);
      var q := Read(d, QosOf(devs[i], SDMA), f);
      if q.Some? {
        var bw := Read(d, BwOf(devs[i], q.value.mpamid), f);
        if bw.Some? {
          var b := bw.value;
          r := r.Put(Str(devs[i]), Arr(Nums([q.value.mpamid, b.low, b.high, b.hard])));
        }
      }
    }
    assert devs[..|devs|] == devs;
  }

  method CaptureOriginalFuse(d: Driver, devs: seq<int>, f: Faults) returns (r: Dict<string, Json>)
    requires ValidDriver(d)
    ensures r == Capture(EmptyBaseline(), d, devs, f).fuse
  {
    r := Empty();
    for i := 0 to |devs|
      invariant r == Capture(EmptyBaseline(), d, devs[..i], f).fuse
    {
      TakeNext(devs, i);
      var x := Read(d, FuseOf(devs[i]), f);
      if x.Some? {
        r := r.Put(Str(devs[i]), Arr(Nums([x.value.enable, x.value.auto, x.value.select])));
      }
    }
    assert devs[..|devs|] == devs;
  }

  /** Copying the entries of a fresh capture over b is capturing into b. */
  lemma {:induction false} UpdateCaptured(b: Baseline, d: Driver, devs: seq<int>, f: Faults)
    requires ValidDriver(d)
    ensures var x, r := Capture(EmptyBaseline(), d, devs, f), Capture(b, d, devs, f);
            r.qos == Update(b.qos, x.qos) && r.mata == Update(b.mata, x.mata) && r.fuse == Update(b.fuse, x.fuse)
  {
    if devs == [] {
      UpdateEmpty(b.qos);
      UpdateEmpty(b.mata);
      UpdateEmpty(b.fuse);
    } else {
      var init, last := devs[..|devs| - 1], devs[|devs| - 1];
      UpdateCaptured(b, d, init, f);
      var x := Capture(EmptyBaseline(), d, init, f);
      UpdatePut(b.qos, x.qos, Str(last), Obj(QosEntry(d, last, MASTERS, f)));
      var mata, fuse := MataEntry(d, last, f), FuseEntry(d, last, f);
      if mata.Some? {
        UpdatePut(b.mata, x.mata, Str(last), mata.value);
      }
      if fuse.Some? {
        UpdatePut(b.fuse, x.fuse, Str(last), fuse.value);
      }
    }
  }

  lemma UpdateEmpty(b: Dict<string, Json>)
    ensures Update(b, Empty()) == b
  {
    assert b.items + map[] == b.items;
    assert b.keys + [] == b.keys;
  }

  /** `_merge_baseline_for_new_devices`. */
  method MergeBaseline(b: Baseline, d: Driver, devs: seq<int>, f: Faults) returns (r: Baseline)
    requires ValidDriver(d)
    ensures r == Capture(b, d, Missing(b, devs), f)
  {
    var missing := [];
    for i := 0 to |devs|
      invariant missing == Missing(b, devs[..i])
    {
      TakeNext(devs, i);
      if !b.Complete(Str(devs[i])) {
        missing := missing + [devs[i]];
      }
    }
    assert devs[..|devs|] == devs;
    if missing == [] {
      return b;
    }
    UpdateCaptured(b, d, missing, f);
    var qos := CaptureOriginalQos(d, missing, f);
    qos := UpdateAll(b.qos, qos);
    var mata := CaptureOriginalMata(d, missing, f);
    mata := UpdateAll(b.mata, mata);
    var fuse := CaptureOriginalFuse(d, missing, f);
    fuse := UpdateAll(b.fuse, fuse);
    r := Baseline(qos, mata, fuse);
  }

  // ---- validating

  method ValidateTuples(fields: Dict<string, Json>, length: nat) returns (r: Option<Dict<string, seq<int>>>)
    requires fields.Valid()
    ensures r == ParseTuples(fields, length)
  {
    var out: Dict<string, seq<int>> := Empty();
    ghost var entry := TupleEntry(fields, length);
    for i := 0 to |fields.keys|
      invariant Collect(fields.keys[..i], entry) == Some(out)
    {
      var key := fields.keys[i];
      assert key in fields.keys;
      var dev, tuple := ParseInt(key), ToTuple(fields.At(key), length);
      if dev.None? || tuple.None? {
        CollectStops(fields.keys, entry, i);
        return None;
      }
      CollectNext(fields.keys, entry, i, out, Str(dev.value), tuple.value);
      out := out.Put(Str(dev.value), tuple.value);
    }
    assert fields.keys[..|fields.keys|] == fields.keys;
    r := Some(out);
  }

  method ValidateMasters(fields: Dict<string, Json>) returns (r: Option<Dict<string, seq<int>>>)
    requires fields.Valid()
    ensures r == ParseMasters(fields)
  {
    var out: Dict<string, seq<int>> := Empty();
    ghost var entry := MasterEntry(fields);
    for i := 0 to |fields.keys|
      invariant Collect(fields.keys[..i], entry) == Some(out)
    {
      var key := fields.keys[i];
      assert key in fields.keys;
      var m, tuple := ParseInt(key), ToTuple(fields.At(key), QOS_LENGTH);
      if m.None? || tuple.None? {
        CollectStops(fields.keys, entry, i);
        return None;
      }
      CollectNext(fields.keys, entry, i, out, key, tuple.value);
      out := out.Put(key, tuple.value);
    }
    assert fields.keys[..|fields.keys|] == fields.keys;
    r := Some(out);
  }

  method ValidateDevice(fields: Dict<string, Json>, key: string) returns (r: Option<(string, Dict<string, seq<int>>)>)
    requires ValidFields(fields) && fields.Has(key)
    ensures r == QosEntries(fields)(key)
  {
    var dev, masters := ParseInt(key), fields.At(key);
    if dev.None? || !masters.Obj? {
      return None;
    }
    var tuples := ValidateMasters(masters.fields);
    if tuples.None? {
      return None;
    }
    r := Some((Str(dev.value), tuples.value));
  }

  method ValidateQos(fields: Dict<string, Json>) returns (r: Option<Dict<string, Dict<string, seq<int>>>>)
    requires ValidFields(fields)
    ensures r == ParseQos(fields)
  {
    var out: Dict<string, Dict<string, seq<int>>> := Empty();
    ghost var entry := QosEntries(fields);
    for i := 0 to |fields.keys|
      invariant Collect(fields.keys[..i], entry) == Some(out)
    {
      assert fields.keys[i] in fields.keys;
      var device := ValidateDevice(fields, fields.keys[i]);
      if device.None? {
        CollectStops(fields.keys, entry, i);
        return None;
      }
      CollectNext(fields.keys, entry, i, out, device.value.0, device.value.1);
      out := out.Put(device.value.0, device.value.1);
    }
    assert fields.keys[..|fields.keys|] == fields.keys;
    r := Some(out);
  }

  /** `_parse_and_validate_unset_state`. */
  method ParseAndValidate(j: Json) returns (r: Option<Parsed>)
    requires ValidState(j)
    ensures r == ParseState(j)
  {
    if !j.Obj? || !j.fields.Has(QOS) || !j.fields.At(QOS).Obj? || !j.fields.Has(PRINTED) {
      return None;
    }
    var printed := ParseTexts(j.fields.At(PRINTED));
    var mata, fuse := ObjectField(j.fields, MATA), ObjectField(j.fields, FUSE);
    if printed.None? || mata.None? || fuse.None? {
      return None;
    }
    var qos := ValidateQos(j.fields.At(QOS).fields);
    if qos.None? {
      return None;
    }
    var matas := ValidateTuples(mata.value, MATA_LENGTH);
    if matas.None? {
      return None;
    }
    var fuses := ValidateTuples(fuse.value, FUSE_LENGTH);
    if fuses.None? {
      return None;
    }
    r := Some(Parsed(qos.value, matas.value, fuses.value, printed.value));
  }

  // ---- the file stays well formed

  ghost predicate ValidFile(file: File) {
    file.Holds? ==> ValidState(file.json)
  }

  ghost predicate WellFormed(b: Baseline) {
    ValidFields(b.qos) && ValidFields(b.mata) && ValidFields(b.fuse)
  }

  lemma {:induction false} CaptureWellFormed(b: Baseline, d: Driver, devs: seq<int>, f: Faults)
    requires ValidDriver(d) && WellFormed(b)
    ensures WellFormed(Capture(b, d, devs, f))
  {
    if devs != [] {
      var init, last := devs[..|devs| - 1], devs[|devs| - 1];
      CaptureWellFormed(b, d, init, f);
      var r := Capture(b, d, init, f);
      PutWellFormed(r.qos, Str(last), Obj(QosEntry(d, last, MASTERS, f)));
      var mata, fuse := MataEntry(d, last, f), FuseEntry(d, last, f);
      if mata.Some? {
        PutWellFormed(r.mata, Str(last), mata.value);
      }
      if fuse.Some? {
        PutWellFormed(r.fuse, Str(last), fuse.value);
      }
    }
  }

  lemma PutWellFormed(x: Dict<string, Json>, k: string, v: Json)
    requires ValidFields(x) && (v.Obj? ==> v.fields.Valid())
    ensures ValidFields(x.Put(k, v))
  {
    var r := x.Put(k, v);
    forall y | r.Has(y) && r.At(y).Obj?
      ensures r.At(y).fields.Valid()
    {
      assert y == k || x.Has(y);
    }
  }

  lemma EncodeWellFormed(b: Baseline, printed: seq<string>)
    requires WellFormed(b)
    ensures ValidState(Encode(b, printed))
  {
  }

  lemma LoadWellFormed(file: File)
    requires ValidFile(file) && Load(file).Ok? && Load(file).value.Some?
    ensures WellFormed(Load(file).value.value)
  {
  }

  // ---- restoring device by device

  lemma PartAt(qos: Dict<string, Dict<string, seq<int>>>, i: nat, dev: string)
    requires ValidQos(qos) && i < |qos.keys| && dev == qos.keys[i]
    ensures qos.Has(dev) && ParseInt(dev).Some? && ValidTuples(qos.At(dev), QOS_LENGTH)
    ensures QosParts(qos)[i] == MasterChanges(ParseInt(dev).value, qos.At(dev))
  {
    assert dev in qos.keys;
  }

  lemma WriteNextPart(d: Driver, parts: seq<seq<Change>>, i: nat, f: Faults)
    requires i < |parts|
    ensures WriteAll(d, Flatten(parts[..i + 1]), f) == WriteAll(WriteAll(d, Flatten(parts[..i]), f), parts[i], f)
  {
    TakeNext(parts, i);
    WriteAllJoined(d, Flatten(parts[..i]), parts[i], f);
  }

  // ---- the commands

  class Tool {
    var driver: Driver
    var file: File

    ghost predicate Valid()
      reads this
    {
      ValidDriver(driver) && ValidFile(file)
    }

    function State(): Sys
      reads this
    {
      Sys(driver, file)
    }

    constructor (driver: Driver, file: File)
      requires ValidDriver(driver) && ValidFile(file)
      ensures Valid() && State() == Sys(driver, file)
    {
      this.driver, this.file := driver, file;
    }

    method SetOneDevice(dev: int, p: Priority, f: Faults)
      requires ValidDriver(driver)
      modifies this`driver
      ensures driver == SetDevice(old(driver), dev, p, f)
    {
      driver := Write(driver, FuseOf(dev), Fuse(1, 1, 1), f);
      ghost var start := driver;
      for i := 0 to |MASTERS|
        invariant ValidDriver(start) && driver == SetMasters(start, dev, MASTERS[..i], p, f)
      {
        var m := MASTERS[i];
        TakeNext(MASTERS, i);
        var q := Read(driver, QosOf(dev, m), f);
        if q.Some? {
          if m == SDMA {
            driver := Write(driver, BwOf(dev, q.value.mpamid), Bandwidth(0, 1, 0), f);
          }
          driver := Write(driver, QosOf(dev, m), q.value.(qos := QosFor(p, m)), f);
        }
      }
      assert MASTERS[..|MASTERS|] == MASTERS;
    }

    method SetAllDevices(devs: seq<int>, p: Priority, f: Faults)
      requires ValidDriver(driver)
      modifies this`driver
      ensures driver == SetDevices(old(driver), devs, p, f)
    {
      for i := 0 to |devs|
        invariant driver == SetDevices(old(driver), devs[..i], p, f)
      {
        TakeNext(devs, i);
        SetOneDevice(devs[i], p, f);
      }
      assert devs[..|devs|] == devs;
    }

    /** The apply command. */
    method SetQos(c: Cmd) returns (err: Option<Error>)
      requires Valid()
      modifies this
      ensures Valid()
      ensures match Apply(old(State()), c)
              case Ok(s) => err == None && State() == s
              case Raised(e) => err == Some(e) && State() == old(State())
    {
      var loaded := Load(file);
      if loaded.Raised? {
        return Some(loaded.error);
      }
      var b: Baseline;
      if loaded.value.Some? {
        LoadWellFormed(file);
        CaptureWellFormed(loaded.value.value, driver, Missing(loaded.value.value, c.devs), c.faults);
        b := MergeBaseline(loaded.value.value, driver, c.devs, c.faults);
      } else {
        CaptureWellFormed(EmptyBaseline(), driver, c.devs, c.faults);
        var qos := CaptureOriginalQos(driver, c.devs, c.faults);
        var mata := CaptureOriginalMata(driver, c.devs, c.faults);
        var fuse := CaptureOriginalFuse(driver, c.devs, c.faults);
        b := Baseline(qos, mata, fuse);
      }
      SetAllDevices(c.devs, c.priority, c.faults);
      EncodeWellFormed(b, c.printed);
      file := Holds(Encode(b, c.printed));
      err := None;
    }

    method RestoreMata(mata: Dict<string, seq<int>>, f: Faults)
      requires ValidTuples(mata, MATA_LENGTH)
      modifies this`driver
      ensures driver == WriteAll(old(driver), BwChanges(mata), f)
    {
      ghost var changes := BwChanges(mata);
      for i := 0 to |mata.keys|
        invariant driver == WriteAll(old(driver), changes[..i], f)
      {
        var dev := mata.keys[i];
        assert dev in mata.keys;
        TakeNext(changes, i);
        var t := mata.At(dev);
        driver := Write(driver, BwOf(ParseInt(dev).value, t[0]), Bandwidth(t[1], t[2], t[3]), f);
      }
      assert changes[..|changes|] == changes;
    }

    method RestoreFuse(fuse: Dict<string, seq<int>>, f: Faults)
      requires ValidTuples(fuse, FUSE_LENGTH)
      modifies this`driver
      ensures driver == WriteAll(old(driver), FuseChanges(fuse), f)
    {
      ghost var changes := FuseChanges(fuse);
      for i := 0 to |fuse.keys|
        invariant driver == WriteAll(old(driver), changes[..i], f)
      {
        var dev := fuse.keys[i];
        assert dev in fuse.keys;
        TakeNext(changes, i);
        var t := fuse.At(dev);
        driver := Write(driver, FuseOf(ParseInt(dev).value), Fuse(t[0], t[1], t[2]), f);
      }
      assert changes[..|changes|] == changes;
    }

    method RestoreMasters(dev: int, masters: Dict<string, seq<int>>, f: Faults)
      requires ValidTuples(masters, QOS_LENGTH)
      modifies this`driver
      ensures driver == WriteAll(old(driver), MasterChanges(dev, masters), f)
    {
      ghost var changes := MasterChanges(dev, masters);
      for i := 0 to |masters.keys|
        invariant driver == WriteAll(old(driver), changes[..i], f)
      {
        var m := masters.keys[i];
        assert m in masters.keys;
        TakeNext(changes, i);
        var t := masters.At(m);
        driver := Write(driver, QosOf(dev, ParseInt(m).value), Qos(t[1], t[2], t[3], t[4]), f);
      }
      assert changes[..|changes|] == changes;
    }

    method RestoreQos(qos: Dict<string, Dict<string, seq<int>>>, f: Faults)
      requires ValidQos(qos)
      modifies this`driver
      ensures driver == WriteAll(old(driver), QosChanges(qos), f)
    {
      ghost var parts := QosParts(qos);
      for i := 0 to |qos.keys|
        invariant driver == WriteAll(old(driver), Flatten(parts[..i]), f)
      {
        var dev := qos.keys[i];
        assert dev in qos.keys;
        PartAt(qos, i, dev);
        WriteNextPart(old(driver), parts, i, f);
        RestoreMasters(ParseInt(dev).value, qos.At(dev), f);
      }
      assert parts[..|parts|] == parts;
    }

    /** The unset command. */
    method RunUnset(f: Faults) returns (err: Option<Error>)
      requires Valid()
      modifies this
      ensures Valid() && (State(), err) == Unset(old(State()), f)
    {
      if file.Absent? {
        return Some(NoStateFile);
      }
      if file.Corrupt? {
        file := Absent;
        return Some(StateRejected);
      }
      var parsed := ParseAndValidate(file.json);
      if parsed.None? {
        file := Absent;
        return Some(StateRejected);
      }
      ParsedIsValid(file.json);
      var p := parsed.value;
      ghost var bw, qos, fuse := BwChanges(p.mata), QosChanges(p.qos), FuseChanges(p.fuse);
      WriteAllJoined(driver, bw, qos, f);
      WriteAllJoined(driver, bw + qos, fuse, f);
      RestoreMata(p.mata, f);
      RestoreQos(p.qos, f);
      RestoreFuse(p.fuse, f);
      file := Absent;
      err := None;
    }
  }

  lemma {:induction false} WriteAllJoined(d: Driver, a: seq<Change>, b: seq<Change>, f: Faults)
    ensures WriteAll(d, a + b, f) == WriteAll(WriteAll(d, a, f), b, f)
  {
    if b == [] {
      assert a + b == a;
    } else {
      WriteAllJoined(d, a, b[..|b| - 1], f);
      assert (a + b)[..|a + b| - 1] == a + b[..|b| - 1];
    }
  }
}
