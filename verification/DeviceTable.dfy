/** The id tables of `DeviceInfo`: which logical NPUs exist and which of them run. */
module DeviceTable {
  import opened Prelude
  import opened Decimal
  import opened Sorting
  import opened Dictionaries
  import CpuPlan

  predicate IsDigit(s: string) {
    s != "" && AllDigits(s)
  }

  /** `npu_map_info`: for each board or card, the logical id of each chip as text. */
  type NpuMap = Dict<string, Dict<string, string>>

  ghost predicate ValidMap(m: NpuMap) {
    m.Valid() && forall npu :: m.Has(npu) ==> m.At(npu).Valid()
  }

  predicate HasChip(m: NpuMap, npu: string, chip: string) {
    m.Has(npu) && m.At(npu).Has(chip)
  }

  function ChipText(m: NpuMap, npu: string, chip: string): string
    requires HasChip(m, npu, chip)
  {
    m.At(npu).At(chip)
  }

  /** At least one decimal digit and nothing else. */
  ghost predicate Numeric(text: string) {
    |text| > 0 && forall c :: c in text ==> '0' <= c <= '9'
  }

  lemma NumericIff(text: string)
    ensures IsDigit(text) <==> Numeric(text)
  {
    if Numeric(text) {
      assert forall i :: 0 <= i < |text| ==> text[i] in text;
    }
  }

  /** The text is the number id. */
  ghost predicate Names(text: string, id: nat) {
    Numeric(text) && AllDigits(text) && DigitsValue(text) == id
  }

  /** id is written somewhere in the map. */
  ghost predicate IsLogicId(m: NpuMap, id: nat) {
    exists npu, chip :: HasChip(m, npu, chip) && Names(ChipText(m, npu, chip), id)
  }

  /** id is written for one of the given cards. */
  ghost predicate SeenId(m: NpuMap, npus: seq<string>, id: nat) {
    exists npu, chip :: npu in npus && HasChip(m, npu, chip) && Names(ChipText(m, npu, chip), id)
  }

  method ChipIds(chips: Dict<string, string>) returns (ids: seq<nat>)
    requires chips.Valid()
    ensures forall id :: id in ids <==> exists chip :: chips.Has(chip) && Names(chips.At(chip), id)
  {
    ids := [];
    for i := 0 to |chips.keys|
      invariant forall id :: id in ids <==>
                  exists chip :: chip in chips.keys[..i] && chips.Has(chip) && Names(chips.At(chip), id)
    {
      TakeNext(chips.keys, i);
      assert chips.keys[i] in chips.keys;
      var text := chips.At(chips.keys[i]);
      NumericIff(text);
      if IsDigit(text) {
        ids := ids + [DigitsValue(text)];
      }
    }
    assert chips.keys[..|chips.keys|] == chips.keys;
  }

  /** Every id in the map, each once and in order. */
  method GetAllLogicNpus(m: NpuMap) returns (all: seq<nat>)
    requires ValidMap(m)
    ensures StrictlyAscending(all)
    ensures forall id :: id in all <==> IsLogicId(m, id)
  {
    var ids: seq<nat> := [];
    for i := 0 to |m.keys|
      invariant forall id :: id in ids <==> SeenId(m, m.keys[..i], id)
    {
      TakeNext(m.keys, i);
      assert m.keys[i] in m.keys;
      var more := ChipIds(m.At(m.keys[i]));
      SeenStep(m, m.keys[..i], m.keys[i], ids, more);
      ids := ids + more;
    }
    assert m.keys[..|m.keys|] == m.keys;
    forall id
      ensures SeenId(m, m.keys, id) <==> IsLogicId(m, id)
    {
      SeenAll(m, id);
    }
    all := SortedSet(ids);
  }

  lemma SeenStep(m: NpuMap, npus: seq<string>, npu: string, ids: seq<nat>, more: seq<nat>)
    requires m.Has(npu) && forall id :: id in ids <==> SeenId(m, npus, id)
    requires forall id :: id in more <==>
               exists chip :: m.At(npu).Has(chip) && Names(m.At(npu).At(chip), id)
    ensures forall id :: id in ids + more <==> SeenId(m, npus + [npu], id)
  {
    forall id: nat
      ensures id in ids + more <==> SeenId(m, npus + [npu], id)
    {
      if id in ids {
        var n, c :| n in npus && HasChip(m, n, c) && Names(ChipText(m, n, c), id);
        assert n in npus + [npu];
      }
      if id in more {
        var c :| m.At(npu).Has(c) && Names(m.At(npu).At(c), id);
        assert npu in npus + [npu] && HasChip(m, npu, c) && ChipText(m, npu, c) == m.At(npu).At(c);
      }
      if SeenId(m, npus + [npu], id) {
        var n, c :| n in npus + [npu] && HasChip(m, n, c) && Names(ChipText(m, n, c), id);
        if n in npus {
          assert SeenId(m, npus, id);
        } else {
          assert m.At(npu).Has(c) && ChipText(m, npu, c) == m.At(npu).At(c);
        }
      }
    }
  }

  lemma SeenAll(m: NpuMap, id: nat)
    requires m.Valid()
    ensures SeenId(m, m.keys, id) <==> IsLogicId(m, id)
  {
    if IsLogicId(m, id) {
      var n, c :| HasChip(m, n, c) && Names(ChipText(m, n, c), id);
      assert n in m.keys;
    }
  }

  datatype Error = AmbiguousChip(npu: string) | NoLogicId(npu: string) | NoRunningNpu

  /** The logical id of a process row; a row without a chip needs a card with one chip. */
  function ResolveLogicId(m: NpuMap, npu: string, chip: Option<string>): Outcome<nat, Error>
    requires ValidMap(m)
  {
    var chips := if m.Has(npu) then m.At(npu) else Empty();
    if chip.None? && |chips.keys| != 1 then Raised(AmbiguousChip(npu))
    else
      var key := if chip.Some? then chip.value else chips.keys[0];
      assert chip.None? ==> chips.keys[0] in chips.keys;
      if !chips.Has(key) || !IsDigit(chips.At(key)) then Raised(NoLogicId(npu)) else Ok(DigitsValue(chips.At(key)))
  }

  /** Some chip of the card carries the id: the chip of the row, or the only one if the row names none. */
  ghost predicate Carries(m: NpuMap, npu: string, chip: Option<string>, id: nat) {
    exists key ::
      && HasChip(m, npu, key) && Names(ChipText(m, npu, key), id)
      && (chip.Some? ==> key == chip.value) && (chip.None? ==> forall c :: HasChip(m, npu, c) ==> c == key)
  }

  /** The card has no chip, or more than one. */
  ghost predicate Ambiguous(m: NpuMap, npu: string) {
    forall key :: HasChip(m, npu, key) ==> exists other :: HasChip(m, npu, other) && other != key
  }

  lemma OneChip(m: NpuMap, npu: string, chips: Dict<string, string>)
    requires ValidMap(m) && m.Has(npu) && chips == m.At(npu) && |chips.keys| == 1
    ensures !Ambiguous(m, npu)
  {
    var key := chips.keys[0];
    assert key in chips.keys;
    assert HasChip(m, npu, key);
    forall other | HasChip(m, npu, other)
      ensures other == key
    {
      assert other in chips.keys;
    }
  }

  lemma AmbiguousIff(m: NpuMap, npu: string)
    requires ValidMap(m)
    ensures Ambiguous(m, npu) <==> !m.Has(npu) || |m.At(npu).keys| != 1
  {
    if m.Has(npu) {
      var chips := m.At(npu);
      if |chips.keys| == 1 {
        OneChip(m, npu, chips);
      } else if |chips.keys| > 1 {
        TwoChips(m, npu, chips);
      }
    }
  }

  lemma TwoChips(m: NpuMap, npu: string, chips: Dict<string, string>)
    requires ValidMap(m) && m.Has(npu) && chips == m.At(npu) && |chips.keys| > 1
    ensures Ambiguous(m, npu)
  {
    var first, second := chips.keys[0], chips.keys[1];
    assert first in chips.keys && second in chips.keys && first != second;
    assert HasChip(m, npu, first) && HasChip(m, npu, second);
  }

  /** Without a chip a row raises exactly when its card does not have one chip; else it may lack an id only. */
  lemma RaisesIff(m: NpuMap, npu: string, chip: Option<string>)
    requires ValidMap(m)
    ensures ResolveLogicId(m, npu, chip) == Raised(AmbiguousChip(npu)) <==> chip.None? && Ambiguous(m, npu)
    ensures ResolveLogicId(m, npu, chip).Raised? <==> forall id :: !Carries(m, npu, chip, id)
    ensures ResolveLogicId(m, npu, chip).Raised? ==>
              ResolveLogicId(m, npu, chip).error in {AmbiguousChip(npu), NoLogicId(npu)}
  {
    forall id: nat
      ensures ResolveLogicId(m, npu, chip) == Ok(id) <==> Carries(m, npu, chip, id)
    {
      ResolvesIff(m, npu, chip, id);
    }
    AmbiguousIff(m, npu);
  }

  /** A row resolves to an id exactly when its chip carries the id, which then is a logical one. */
  lemma ResolvesIff(m: NpuMap, npu: string, chip: Option<string>, id: nat)
    requires ValidMap(m)
    ensures ResolveLogicId(m, npu, chip) == Ok(id) <==> Carries(m, npu, chip, id)
    ensures ResolveLogicId(m, npu, chip) == Ok(id) ==> IsLogicId(m, id)
  {
    if ResolveLogicId(m, npu, chip) == Ok(id) {
      var chips := m.At(npu);
      var key := if chip.Some? then chip.value else chips.keys[0];
      NumericIff(chips.At(key));
      assert HasChip(m, npu, key) && ChipText(m, npu, key) == chips.At(key);
      forall c | chip.None? && HasChip(m, npu, c)
        ensures c == key
      {
        assert c in chips.keys;
      }
    }
    if Carries(m, npu, chip, id) {
      var key :| HasChip(m, npu, key) && Names(ChipText(m, npu, key), id)
                 && (chip.Some? ==> key == chip.value) && (chip.None? ==> forall c :: HasChip(m, npu, c) ==> c == key);
      NumericIff(ChipText(m, npu, key));
      if chip.None? {
        forall c | m.At(npu).Has(c)
          ensures c == key
        {
          assert HasChip(m, npu, c);
        }
        OnlyKey(m.At(npu), key);
      }
    }
  }

  lemma OnlyKey(d: Dict<string, string>, key: string)
    requires d.Valid() && d.Has(key) && forall k :: d.Has(k) ==> k == key
    ensures d.keys == [key]
  {
    assert key in d.keys;
    assert |d.keys| > 1 ==> d.keys[0] != d.keys[1];
    forall i | 0 <= i < |d.keys|
      ensures d.keys[i] == key
    {
      assert d.keys[i] in d.keys && d.Has(d.keys[i]);
    }
  }

  /** A line of the process table. */
  datatype ProcRow = ProcRow(npu: string, chip: Option<string>)

  predicate Skipped(row: ProcRow) {
    !IsDigit(row.npu) || (row.chip.Some? && !IsDigit(row.chip.value))
  }

  /** The row has a number for the card and, if it has a chip, for that too. */
  ghost predicate Counts(row: ProcRow) {
    Numeric(row.npu) && (row.chip.Some? ==> Numeric(row.chip.value))
  }

  lemma SkippedIff(row: ProcRow)
    ensures Skipped(row) <==> !Counts(row)
  {
    NumericIff(row.npu);
    if row.chip.Some? {
      NumericIff(row.chip.value);
    }
  }

  /** A row that counts carries the id. */
  ghost predicate Runs(m: NpuMap, rows: seq<ProcRow>, id: nat) {
    exists i :: 0 <= i < |rows| && Counts(rows[i]) && Carries(m, rows[i].npu, rows[i].chip, id)
  }

  lemma RunsIsLogic(m: NpuMap, rows: seq<ProcRow>, id: nat)
    requires ValidMap(m) && Runs(m, rows, id)
    ensures IsLogicId(m, id)
  {
    var i :| 0 <= i < |rows| && Counts(rows[i]) && Carries(m, rows[i].npu, rows[i].chip, id);
    ResolvesIff(m, rows[i].npu, rows[i].chip, id);
  }

  /** Some row that counts carries no logical id. */
  ghost predicate Unresolved(m: NpuMap, rows: seq<ProcRow>) {
    exists i :: 0 <= i < |rows| && Counts(rows[i]) && CarriesNone(m, rows[i])
  }

  ghost predicate CarriesNone(m: NpuMap, row: ProcRow) {
    forall id :: !Carries(m, row.npu, row.chip, id)
  }

  predicate Visible(visible: Option<seq<int>>, id: nat) {
    visible.Some? ==> id in visible.value
  }

  /**
   The sorted ids of the running NPUs, restricted to the visible ones when a list is given. Each of them
   is a logical id of the map. It raises when a row does not resolve or when nothing is left.
   */
  method GetRunningNpus(m: NpuMap, rows: seq<ProcRow>, visible: Option<seq<int>>) returns (r: Outcome<seq<nat>, Error>)
    requires ValidMap(m)
    ensures r.Ok? ==> StrictlyAscending(r.value) && r.value != []
    ensures r.Ok? ==> forall id :: id in r.value <==> Runs(m, rows, id) && Visible(visible, id)
    ensures r.Ok? ==> forall id :: id in r.value ==> IsLogicId(m, id)
    ensures r == Raised(NoRunningNpu) ==> !Unresolved(m, rows)
    ensures r.Raised? <==> Unresolved(m, rows) || forall id :: Runs(m, rows, id) ==> !Visible(visible, id)
  {
    var running: seq<nat> := [];
    for i := 0 to |rows|
      invariant forall id :: id in running <==> Runs(m, rows[..i], id)
      invariant forall k :: 0 <= k < i && Counts(rows[k]) ==> !CarriesNone(m, rows[k])
    {
      RunsStep(m, rows, i);
      SkippedIff(rows[i]);
      RaisesIff(m, rows[i].npu, rows[i].chip);
      if !Skipped(rows[i]) {
        var id := ResolveLogicId(m, rows[i].npu, rows[i].chip);
        if id.Raised? {
          return Raised(id.error);
        }
        running := running + [id.value];
      }
    }
    assert rows[..|rows|] == rows;
    if visible.Some? {
      running := Filter((id: nat) => id in visible.value, running);
    }
    forall id | id in running
      ensures IsLogicId(m, id)
    {
      RunsIsLogic(m, rows, id);
    }
    if running == [] {
      return Raised(NoRunningNpu);
    }
    assert running[0] in running;
    assert running[0] in SortedSet(running);
    return Ok(SortedSet(running));
  }

  lemma RunsStep(m: NpuMap, rows: seq<ProcRow>, k: nat)
    requires ValidMap(m) && k < |rows|
    ensures forall id: nat :: Runs(m, rows[..k + 1], id) <==>
              Runs(m, rows[..k], id) || (!Skipped(rows[k]) && ResolveLogicId(m, rows[k].npu, rows[k].chip) == Ok(id))
  {
    SkippedIff(rows[k]);
    forall id: nat
      ensures Runs(m, rows[..k + 1], id) <==>
              Runs(m, rows[..k], id) || (!Skipped(rows[k]) && ResolveLogicId(m, rows[k].npu, rows[k].chip) == Ok(id))
    {
      ResolvesIff(m, rows[k].npu, rows[k].chip, id);
      assert forall i :: 0 <= i < k ==> rows[..k + 1][i] == rows[..k][i];
      assert rows[..k + 1][k] == rows[k];
    }
  }

  /** `DeviceInfo.__init__`: the logical ids of the map, and among them the visible ids that run. */
  method LoadDeviceInfo(m: NpuMap, rows: seq<ProcRow>, visible: Option<seq<int>>,
                        allowed: seq<nat>, affinity: map<nat, seq<nat>>)
    returns (r: Outcome<CpuPlan.DeviceInfo, Error>)
    requires ValidMap(m)
    ensures r.Raised? <==> Unresolved(m, rows) || forall id :: Runs(m, rows, id) ==> !Visible(visible, id)
    ensures r.Ok? ==>
              && CpuPlan.ValidInfo(r.value)
              && r.value.allowedCpus == allowed && r.value.npuAffinity == affinity
              && r.value.runningNpus != []
              && (forall id :: id in r.value.allLogicNpus <==> IsLogicId(m, id))
              && (forall id :: id in r.value.runningNpus <==> Runs(m, rows, id) && Visible(visible, id))
              && (forall id :: id in r.value.runningNpus ==> id in r.value.allLogicNpus)
  {
    var running := GetRunningNpus(m, rows, visible);
    if running.Raised? {
      return Raised(running.error);
    }
    var all := GetAllLogicNpus(m);
    return Ok(CpuPlan.DeviceInfo(allowed, running.value, affinity, all));
  }
}
