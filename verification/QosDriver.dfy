/** The device settings behind the driver, and what an apply reads and writes there. */
module QosDriver {
  import opened Prelude
  import opened Dictionaries
  import opened QosText

  /** A place for a setting: the QoS of a master, the bandwidth of an MPAM id, the fuse mode of a device. */
  datatype Slot = QosOf(dev: int, master: int) | BwOf(dev: int, mpamid: int) | FuseOf(dev: int)

  datatype Setting =
    | Qos(mpamid: int, qos: int, pmg: int, mode: int)
    | Bandwidth(low: int, high: int, hard: int)
    | Fuse(enable: int, auto: int, select: int)

  type Driver = map<Slot, Setting>

  ghost predicate ValidDriver(d: Driver) {
    forall s :: s in d ==>
      match s
      case QosOf(_, _) => d[s].Qos?
      case BwOf(_, _) => d[s].Bandwidth?
      case FuseOf(_) => d[s].Fuse?
  }

  /** The calls that fail during one command. A slot the hardware does not have fails always. */
  datatype Faults = Faults(failedReads: set<Slot>, failedWrites: set<Slot>)

  function Read(d: Driver, s: Slot, f: Faults): Option<Setting> {
    if s in d && s !in f.failedReads then Some(d[s]) else None
  }

  function Write(d: Driver, s: Slot, v: Setting, f: Faults): Driver {
    if s in d && s !in f.failedWrites then d[s := v] else d
  }

  // ---- the masters and the priority table

  const AIV_DATA := 11
  const AIV_INS := 12
  const SDMA := 13
  const PCIEDMA := 7

  const MASTERS: seq<int> := [AIV_DATA, AIV_INS, SDMA, PCIEDMA]

  datatype Level = Low | Middle | High

  /** The priority of each kind of transfer; PCIe DMA knows only low and high. */
  datatype Priority = Priority(aivD2D: Level, aivH2D: Level, sdmaD2D: Level, sdmaH2D: Level, pcieHigh: bool)

  function AivQos(l: Level): int { match l case Low => 1 case Middle => 3 case High => 5 }

  function SdmaQos(l: Level): int { match l case Low => 2 case Middle => 4 case High => 6 }

  /** The QoS value an apply gives to a master. */
  function QosFor(p: Priority, master: int): int {
    if master == AIV_DATA || master == AIV_INS then Min(AivQos(p.aivD2D), AivQos(p.aivH2D))
    else if master == SDMA then Min(SdmaQos(p.sdmaD2D), SdmaQos(p.sdmaH2D))
    else if p.pcieHigh then 7 else 0
  }

  // ---- capturing the original settings

  /** The saved tuple of one master. */
  function QosTuple(master: int, s: Setting): Json
    requires s.Qos?
  {
    Arr(Nums([master, s.mpamid, s.qos, s.pmg, s.mode]))
  }

  /** The tuples of the masters that can be read. */
  function QosEntry(d: Driver, dev: int, masters: seq<int>, f: Faults): (r: Dict<string, Json>)
    requires ValidDriver(d)
    ensures r.Valid()
  {
    if masters == [] then Empty()
    else
      var before, m := QosEntry(d, dev, masters[..|masters| - 1], f), masters[|masters| - 1];
      match Read(d, QosOf(dev, m), f)
      case Some(q) => before.Put(Str(m), QosTuple(m, q))
      case None => before
  }

  /** The SDMA bandwidth of a device with its MPAM id, when both reads succeed. */
  function MataEntry(d: Driver, dev: int, f: Faults): Option<Json>
    requires ValidDriver(d)
  {
    match Read(d, QosOf(dev, SDMA), f)
    case None => None
    case Some(q) =>
      match Read(d, BwOf(dev, q.mpamid), f)
      case None => None
      case Some(b) => Some(Arr(Nums([q.mpamid, b.low, b.high, b.hard])))
  }

  function FuseEntry(d: Driver, dev: int, f: Faults): Option<Json>
    requires ValidDriver(d)
  {
    match Read(d, FuseOf(dev), f)
    case None => None
    case Some(x) => Some(Arr(Nums([x.enable, x.auto, x.select])))
  }

  /** The three dictionaries of original settings, by device number as text. */
  datatype Baseline = Baseline(qos: Dict<string, Json>, mata: Dict<string, Json>, fuse: Dict<string, Json>) {
    ghost predicate Valid() {
      qos.Valid() && mata.Valid() && fuse.Valid()
    }

    predicate Complete(key: string) {
      qos.Has(key) && mata.Has(key) && fuse.Has(key)
    }
  }

  function EmptyBaseline(): (b: Baseline)
    ensures b.Valid()
  {
    Baseline(Empty(), Empty(), Empty())
  }

  function PutSome(d: Dict<string, Json>, k: string, v: Option<Json>): (r: Dict<string, Json>)
    ensures d.Valid() ==> r.Valid()
  {
    if v.Some? then d.Put(k, v.value) else d
  }

  /** What capturing one device puts into the dictionaries. */
  function CaptureOne(b: Baseline, d: Driver, dev: int, f: Faults): (r: Baseline)
    requires ValidDriver(d)
    ensures b.Valid() ==> r.Valid()
  {
    Baseline(b.qos.Put(Str(dev), Obj(QosEntry(d, dev, MASTERS, f))),
             PutSome(b.mata, Str(dev), MataEntry(d, dev, f)),
             PutSome(b.fuse, Str(dev), FuseEntry(d, dev, f)))
  }

  function Capture(b: Baseline, d: Driver, devs: seq<int>, f: Faults): (r: Baseline)
    requires ValidDriver(d)
    ensures b.Valid() ==> r.Valid()
  {
    if devs == [] then b else CaptureOne(Capture(b, d, devs[..|devs| - 1], f), d, devs[|devs| - 1], f)
  }

  /** The devices that some dictionary does not know. */
  function Missing(b: Baseline, devs: seq<int>): (r: seq<int>)
    ensures forall dev :: dev in r <==> dev in devs && !b.Complete(Str(dev))
  {
    if devs == [] then []
    else
      SplitLast(devs);
      var before, last := Missing(b, devs[..|devs| - 1]), devs[|devs| - 1];
      if b.Complete(Str(last)) then before else before + [last]
  }

  // ---- applying

  /** Setting one master of a device; SDMA sets its bandwidth first. */
  function SetMaster(d: Driver, dev: int, m: int, p: Priority, f: Faults): (r: Driver)
    requires ValidDriver(d)
    ensures ValidDriver(r)
  {
    match Read(d, QosOf(dev, m), f)
    case None => d
    case Some(q) =>
      var withBw := if m == SDMA then Write(d, BwOf(dev, q.mpamid), Bandwidth(0, 1, 0), f) else d;
      Write(withBw, QosOf(dev, m), q.(qos := QosFor(p, m)), f)
  }

  /** The settings after the given masters of one device have been set. */
  function SetMasters(d: Driver, dev: int, masters: seq<int>, p: Priority, f: Faults): (r: Driver)
    requires ValidDriver(d)
    ensures ValidDriver(r)
  {
    if masters == [] then d
    else SetMaster(SetMasters(d, dev, masters[..|masters| - 1], p, f), dev, masters[|masters| - 1], p, f)
  }

  function SetDevice(d: Driver, dev: int, p: Priority, f: Faults): (r: Driver)
    requires ValidDriver(d)
    ensures ValidDriver(r)
  {
    SetMasters(Write(d, FuseOf(dev), Fuse(1, 1, 1), f), dev, MASTERS, p, f)
  }

  function SetDevices(d: Driver, devs: seq<int>, p: Priority, f: Faults): (r: Driver)
    requires ValidDriver(d)
    ensures ValidDriver(r)
  {
    if devs == [] then d else SetDevice(SetDevices(d, devs[..|devs| - 1], p, f), devs[|devs| - 1], p, f)
  }
}
