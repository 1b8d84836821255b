/** The state file: what an apply writes, what the next apply loads and what unset accepts. */
module QosState {
  import opened Prelude
  import opened Dictionaries
  import opened QosText
  import opened QosDriver

  /** The state file; Corrupt is content that is not JSON. */
  datatype File = Absent | Corrupt | Holds(json: Json)

  datatype Error = NoStateFile | StateRejected | StateNotObject

  const QOS := "original_qos"
  const MATA := "original_sdma_mata"
  const FUSE := "original_fuse"
  const PRINTED := "printed_commands"

  const QOS_LENGTH := 5
  const MATA_LENGTH := 4
  const FUSE_LENGTH := 3

  function Texts(lines: seq<string>): seq<Json> {
    seq(|lines|, i requires 0 <= i < |lines| => Text(lines[i]))
  }

  function Encode(b: Baseline, printed: seq<string>): Json {
    Obj(Dict([QOS, MATA, FUSE, PRINTED],
             map[QOS := Obj(b.qos), MATA := Obj(b.mata), FUSE := Obj(b.fuse), PRINTED := Arr(Texts(printed))]))
  }

  /** `data.get(key, {})`, and {} again when the value is not a dictionary. */
  function ObjectOrEmpty(fields: Dict<string, Json>, key: string): Dict<string, Json> {
    if fields.Has(key) && fields.At(key).Obj? then fields.At(key).fields else Empty()
  }

  /** `_load_first_apply_baseline`. */
  function Load(file: File): Outcome<Option<Baseline>, Error> {
    if !file.Holds? then Ok(None)
    else if !file.json.Obj? then Raised(StateNotObject)
    else
      var fields := file.json.fields;
      if !(fields.Has(QOS) && fields.At(QOS).Obj?) then Ok(None)
      else Ok(Some(Baseline(fields.At(QOS).fields, ObjectOrEmpty(fields, MATA), ObjectOrEmpty(fields, FUSE))))
  }

  lemma LoadEncoded(b: Baseline, printed: seq<string>)
    ensures Load(Holds(Encode(b, printed))) == Ok(Some(b))
  {
  }

  // ---- what unset accepts

  /** Device settings ready to be restored, in file order. */
  datatype Parsed = Parsed(
    qos: Dict<string, Dict<string, seq<int>>>,
    mata: Dict<string, seq<int>>,
    fuse: Dict<string, seq<int>>,
    printed: seq<string>)

  /** A device number and a tuple of the given length, under the number's own text. */
  function TupleEntry(fields: Dict<string, Json>, length: nat): string -> Option<(string, seq<int>)> {
    (key: string) =>
      if fields.Has(key) && ParseInt(key).Some? && ToTuple(fields.At(key), length).Some?
      then Some((Str(ParseInt(key).value), ToTuple(fields.At(key), length).value))
      else None
  }

  function ParseTuples(fields: Dict<string, Json>, length: nat): Option<Dict<string, seq<int>>> {
    Collect(fields.keys, TupleEntry(fields, length))
  }

  /** A master number and its tuple, under the key as it stands. */
  function MasterEntry(fields: Dict<string, Json>): string -> Option<(string, seq<int>)> {
    (key: string) =>
      if fields.Has(key) && ParseInt(key).Some? && ToTuple(fields.At(key), QOS_LENGTH).Some?
      then Some((key, ToTuple(fields.At(key), QOS_LENGTH).value))
      else None
  }

  function ParseMasters(fields: Dict<string, Json>): Option<Dict<string, seq<int>>> {
    Collect(fields.keys, MasterEntry(fields))
  }

  function QosEntries(fields: Dict<string, Json>): string -> Option<(string, Dict<string, seq<int>>)> {
    (key: string) =>
      if fields.Has(key) && ParseInt(key).Some? && fields.At(key).Obj? && ParseMasters(fields.At(key).fields).Some?
      then Some((Str(ParseInt(key).value), ParseMasters(fields.At(key).fields).value))
      else None
  }

  function ParseQos(fields: Dict<string, Json>): Option<Dict<string, Dict<string, seq<int>>>> {
    Collect(fields.keys, QosEntries(fields))
  }

  function ParseTexts(j: Json): Option<seq<string>> {
    if j.Arr? && forall i :: 0 <= i < |j.items| ==> j.items[i].Text?
    then Some(seq(|j.items|, i requires 0 <= i < |j.items| => j.items[i].s))
    else None
  }

  /** `data.get(key, {})`, which must be a dictionary. */
  function ObjectField(fields: Dict<string, Json>, key: string): Option<Dict<string, Json>> {
    if !fields.Has(key) then Some(Empty())
    else if fields.At(key).Obj? then Some(fields.At(key).fields)
    else None
  }

  ghost predicate ValidFields(fields: Dict<string, Json>) {
    fields.Valid() && forall k :: fields.Has(k) && fields.At(k).Obj? ==> fields.At(k).fields.Valid()
  }

  /** The dictionaries the tool looks at have each key once, as all dictionaries read from JSON text do. */
  ghost predicate ValidState(j: Json) {
    j.Obj? ==>
      && j.fields.Valid()
      && forall k :: j.fields.Has(k) && j.fields.At(k).Obj? ==> ValidFields(j.fields.At(k).fields)
  }

  /** `_parse_and_validate_unset_state`. */
  function ParseState(j: Json): Option<Parsed> {
    if !j.Obj? || !j.fields.Has(QOS) || !j.fields.At(QOS).Obj? || !j.fields.Has(PRINTED) then None
    else
      var printed := ParseTexts(j.fields.At(PRINTED));
      var mata, fuse := ObjectField(j.fields, MATA), ObjectField(j.fields, FUSE);
      if printed.None? || mata.None? || fuse.None? then None
      else
        var qos := ParseQos(j.fields.At(QOS).fields);
        var matas, fuses := ParseTuples(mata.value, MATA_LENGTH), ParseTuples(fuse.value, FUSE_LENGTH);
        if qos.None? || matas.None? || fuses.None? then None
        else Some(Parsed(qos.value, matas.value, fuses.value, printed.value))
  }

  // ---- the validator returns only what can be restored

  /** Keys are numbers and tuples have the given length. */
  ghost predicate ValidTuples(t: Dict<string, seq<int>>, length: nat) {
    t.Valid() && forall k :: t.Has(k) ==> ParseInt(k).Some? && |t.At(k)| == length
  }

  ghost predicate ValidQos(qos: Dict<string, Dict<string, seq<int>>>) {
    qos.Valid() && forall k :: qos.Has(k) ==> ParseInt(k).Some? && ValidTuples(qos.At(k), QOS_LENGTH)
  }

  ghost predicate ValidParsed(p: Parsed) {
    ValidQos(p.qos) && ValidTuples(p.mata, MATA_LENGTH) && ValidTuples(p.fuse, FUSE_LENGTH)
  }

  lemma ParsedTuplesValid(fields: Dict<string, Json>, length: nat)
    requires ParseTuples(fields, length).Some?
    ensures ValidTuples(ParseTuples(fields, length).value, length)
  {
    var entry := TupleEntry(fields, length);
    forall key | key in fields.keys && entry(key).Some?
      ensures ParseInt(entry(key).value.0).Some?
    {
      IntRoundTrip(ParseInt(key).value);
    }
    CollectHolds(fields.keys, entry, (k: string, t: seq<int>) => ParseInt(k).Some? && |t| == length);
  }

  lemma ParsedMastersValid(fields: Dict<string, Json>)
    requires ParseMasters(fields).Some?
    ensures ValidTuples(ParseMasters(fields).value, QOS_LENGTH)
  {
    CollectHolds(fields.keys, MasterEntry(fields), (k: string, t: seq<int>) => ParseInt(k).Some? && |t| == QOS_LENGTH);
  }

  lemma ParsedQosValid(fields: Dict<string, Json>)
    requires ParseQos(fields).Some?
    ensures ValidQos(ParseQos(fields).value)
  {
    var entry := QosEntries(fields);
    ghost var valid := (k: string, t: Dict<string, seq<int>>) => ParseInt(k).Some? && ValidTuples(t, QOS_LENGTH);
    forall key | key in fields.keys && entry(key).Some?
      ensures valid(entry(key).value.0, entry(key).value.1)
    {
      IntRoundTrip(ParseInt(key).value);
      ParsedMastersValid(fields.At(key).fields);
    }
    CollectHolds(fields.keys, entry, valid);
  }

  lemma ParsedIsValid(j: Json)
    requires ParseState(j).Some?
    ensures ValidParsed(ParseState(j).value)
  {
    ParsedQosValid(j.fields.At(QOS).fields);
    ParsedTuplesValid(ObjectField(j.fields, MATA).value, MATA_LENGTH);
    ParsedTuplesValid(ObjectField(j.fields, FUSE).value, FUSE_LENGTH);
  }

  // ---- restoring

  /** One call that sets a slot. */
  datatype Change = Change(slot: Slot, value: Setting) {
    predicate Valid() {
      match slot
      case QosOf(_, _) => value.Qos?
      case BwOf(_, _) => value.Bandwidth?
      case FuseOf(_) => value.Fuse?
    }
  }

  function WriteAll(d: Driver, changes: seq<Change>, f: Faults): (r: Driver)
    ensures ValidDriver(d) && (forall i :: 0 <= i < |changes| ==> changes[i].Valid()) ==> ValidDriver(r)
  {
    if changes == [] then d
    else
      var last := changes[|changes| - 1];
      Write(WriteAll(d, changes[..|changes| - 1], f), last.slot, last.value, f)
  }

  function BwChange(dev: string, t: seq<int>): (c: Change)
    requires ParseInt(dev).Some? && |t| == MATA_LENGTH
    ensures c.Valid()
  {
    Change(BwOf(ParseInt(dev).value, t[0]), Bandwidth(t[1], t[2], t[3]))
  }

  function BwChanges(mata: Dict<string, seq<int>>): (r: seq<Change>)
    requires ValidTuples(mata, MATA_LENGTH)
    ensures |r| == |mata.keys| && forall i :: 0 <= i < |r| ==> r[i].Valid()
  {
    seq(|mata.keys|, i requires 0 <= i < |mata.keys| =>
      assert mata.keys[i] in mata.keys; BwChange(mata.keys[i], mata.At(mata.keys[i])))
  }

  function FuseChange(dev: string, t: seq<int>): (c: Change)
    requires ParseInt(dev).Some? && |t| == FUSE_LENGTH
    ensures c.Valid()
  {
    Change(FuseOf(ParseInt(dev).value), Fuse(t[0], t[1], t[2]))
  }

  function FuseChanges(fuse: Dict<string, seq<int>>): (r: seq<Change>)
    requires ValidTuples(fuse, FUSE_LENGTH)
    ensures |r| == |fuse.keys| && forall i :: 0 <= i < |r| ==> r[i].Valid()
  {
    seq(|fuse.keys|, i requires 0 <= i < |fuse.keys| =>
      assert fuse.keys[i] in fuse.keys; FuseChange(fuse.keys[i], fuse.At(fuse.keys[i])))
  }

  function MasterChange(dev: int, m: string, t: seq<int>): (c: Change)
    requires ParseInt(m).Some? && |t| == QOS_LENGTH
    ensures c.Valid()
  {
    Change(QosOf(dev, ParseInt(m).value), Qos(t[1], t[2], t[3], t[4]))
  }

  function MasterChanges(dev: int, masters: Dict<string, seq<int>>): (r: seq<Change>)
    requires ValidTuples(masters, QOS_LENGTH)
    ensures |r| == |masters.keys| && forall i :: 0 <= i < |r| ==> r[i].Valid()
  {
    seq(|masters.keys|, i requires 0 <= i < |masters.keys| =>
      assert masters.keys[i] in masters.keys; MasterChange(dev, masters.keys[i], masters.At(masters.keys[i])))
  }

  /** The changes of each device. */
  function QosParts(qos: Dict<string, Dict<string, seq<int>>>): (r: seq<seq<Change>>)
    requires ValidQos(qos)
    ensures |r| == |qos.keys|
    ensures forall i, j :: 0 <= i < |r| && 0 <= j < |r[i]| ==> r[i][j].Valid()
  {
    seq(|qos.keys|, i requires 0 <= i < |qos.keys| =>
      assert qos.keys[i] in qos.keys; MasterChanges(ParseInt(qos.keys[i]).value, qos.At(qos.keys[i])))
  }

  lemma {:induction false} FlattenValid(parts: seq<seq<Change>>)
    requires forall i, j :: 0 <= i < |parts| && 0 <= j < |parts[i]| ==> parts[i][j].Valid()
    ensures forall j :: 0 <= j < |Flatten(parts)| ==> Flatten(parts)[j].Valid()
  {
    if parts != [] {
      FlattenValid(parts[..|parts| - 1]);
    }
  }

  function QosChanges(qos: Dict<string, Dict<string, seq<int>>>): (r: seq<Change>)
    requires ValidQos(qos)
    ensures forall i :: 0 <= i < |r| ==> r[i].Valid()
  {
    FlattenValid(QosParts(qos));
    Flatten(QosParts(qos))
  }

  /** What unset writes: bandwidth, then QoS, then fuse settings. */
  function RestoreChanges(p: Parsed): (r: seq<Change>)
    requires ValidParsed(p)
    ensures forall i :: 0 <= i < |r| ==> r[i].Valid()
  {
    BwChanges(p.mata) + QosChanges(p.qos) + FuseChanges(p.fuse)
  }
}
