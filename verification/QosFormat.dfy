/** Which text, values and files the QoS tool accepts, said without the parser, and the priority table. */
module QosFormat {
  import opened Prelude
  import opened Decimal
  import opened Dictionaries
  import opened QosText
  import opened QosDriver
  import opened QosState
  import opened QosRuns

  // ---- integers as text

  function Zeros(k: nat): string {
    seq(k, _ => '0')
  }

  function Pow10(k: nat): nat {
    if k == 0 then 1 else 10 * Pow10(k - 1)
  }

  /** Digits further to the left count ten times as much. */
  lemma {:induction false} DigitsConcat(a: string, b: string)
    requires AllDigits(a) && AllDigits(b)
    ensures AllDigits(a + b) && DigitsValue(a + b) == DigitsValue(a) * Pow10(|b|) + DigitsValue(b)
  {
    if b == "" {
      assert a + b == a;
    } else {
      var k := |b| - 1;
      DigitsConcat(a, b[..k]);
      assert (a + b)[..|a| + k] == a + b[..k] && (a + b)[|a| + k] == b[k];
      Regroup(DigitsValue(a), Pow10(k), DigitsValue(b[..k]), b[k] as nat - '0' as nat);
    }
  }

  lemma Regroup(x: nat, p: nat, y: nat, d: nat)
    ensures (x * p + y) * 10 + d == x * (10 * p) + (y * 10 + d)
  {
  }

  lemma {:induction false} ZerosValue(k: nat)
    ensures AllDigits(Zeros(k)) && DigitsValue(Zeros(k)) == 0
  {
    if k > 0 {
      assert Zeros(k)[..k - 1] == Zeros(k - 1);
      ZerosValue(k - 1);
    }
  }

  /** Every digit string is zeros and the decimal of its value. */
  lemma {:induction false} Normal(s: string) returns (k: nat)
    requires s != "" && AllDigits(s)
    ensures s == Zeros(k) + Digits(DigitsValue(s))
  {
    var n, d := |s| - 1, s[|s| - 1] as nat - '0' as nat;
    SplitLast(s);
    if n == 0 {
      k := 0;
      assert s[..0] == "" && s == Zeros(0) + Digits(d);
    } else {
      var v := DigitsValue(s[..n]);
      var j := Normal(s[..n]);
      if v == 0 {
        k := j + 1;
        assert Zeros(j) + Digits(0) == Zeros(k);
      } else {
        k := j;
        assert (v * 10 + d) / 10 == v && (v * 10 + d) % 10 == d;
        assert s == (Zeros(k) + Digits(v)) + [s[n]] == Zeros(k) + (Digits(v) + [s[n]]);
      }
    }
  }

  /** The text is the decimal of n, with any number of leading zeros and the sign, of which + may be left out. */
  ghost predicate Reads(s: string, n: int) {
    exists k: nat :: ReadsWith(s, n, k)
  }

  ghost predicate ReadsWith(s: string, n: int, k: nat) {
    || (n >= 0 && (s == Zeros(k) + Digits(n) || s == "+" + (Zeros(k) + Digits(n))))
    || (n <= 0 && s == "-" + (Zeros(k) + Digits(-n)))
  }

  lemma PaddedValue(k: nat, n: nat)
    ensures AllDigits(Zeros(k) + Digits(n)) && DigitsValue(Zeros(k) + Digits(n)) == n && Zeros(k) + Digits(n) != ""
  {
    ZerosValue(k);
    DigitsRoundTrip(n);
    DigitsConcat(Zeros(k), Digits(n));
  }

  lemma SignedParses(digits: string)
    requires digits != "" && AllDigits(digits)
    ensures ParseInt(digits) == ParseInt("+" + digits) == Some(DigitsValue(digits))
    ensures ParseInt("-" + digits) == Some(-(DigitsValue(digits) as int))
  {
    assert '0' <= digits[0] <= '9';
    assert ("+" + digits)[1..] == digits && ("-" + digits)[1..] == digits;
  }

  lemma ReadsParses(s: string, n: int, k: nat)
    requires ReadsWith(s, n, k)
    ensures ParseInt(s) == Some(n)
  {
    var m := if n >= 0 then n else -n;
    PaddedValue(k, m);
    SignedParses(Zeros(k) + Digits(m));
  }

  lemma ParsesReads(s: string, n: int)
    requires ParseInt(s) == Some(n)
    ensures Reads(s, n)
  {
    if s[0] == '-' {
      var k := Normal(s[1..]);
      assert s == "-" + s[1..];
      assert ReadsWith(s, n, k);
    } else if s[0] == '+' {
      var k := Normal(s[1..]);
      assert s == "+" + s[1..];
      assert ReadsWith(s, n, k);
    } else {
      var k := Normal(s);
      assert ReadsWith(s, n, k);
    }
  }

  lemma ParseIntIff(s: string, n: int)
    ensures ParseInt(s) == Some(n) <==> Reads(s, n)
  {
    if ParseInt(s) == Some(n) {
      ParsesReads(s, n);
    }
    if Reads(s, n) {
      var k: nat :| ReadsWith(s, n, k);
      ReadsParses(s, n, k);
    }
  }

  // ---- JSON values as integers

  /** n is r without its fraction. */
  ghost predicate Truncates(r: real, n: int) {
    if r >= 0.0 then n as real <= r < n as real + 1.0 else n as real - 1.0 < r <= n as real
  }

  ghost predicate IsInt(j: Json, n: int) {
    match j
    case Num(m) => m == n
    case Bool(b) => (b && n == 1) || (!b && n == 0)
    case Real(r) => Truncates(r, n)
    case Text(s) => Reads(s, n)
    case _ => false
  }

  lemma ToIntIff(j: Json, n: int)
    ensures ToInt(j) == Some(n) <==> IsInt(j, n)
  {
    if j.Text? {
      ParseIntIff(j.s, n);
    }
  }

  /** A list of as many integers. */
  ghost predicate IsTuple(j: Json, t: seq<int>) {
    j.Arr? && |j.items| == |t| && forall i :: 0 <= i < |t| ==> IsInt(j.items[i], t[i])
  }

  lemma ToTupleIff(j: Json, t: seq<int>)
    ensures ToTuple(j, |t|) == Some(t) <==> IsTuple(j, t)
  {
    if j.Arr? && |j.items| == |t| {
      forall i | 0 <= i < |t|
        ensures ToInt(j.items[i]) == Some(t[i]) <==> IsInt(j.items[i], t[i])
      {
        ToIntIff(j.items[i], t[i]);
      }
      if IsTuple(j, t) {
        assert forall i :: 0 <= i < |t| ==> ToInt(j.items[i]) == Some(t[i]);
        assert ToTuple(j, |t|).value == t;
      }
    }
  }

  ghost predicate HasTuple(j: Json, length: nat) {
    exists t :: |t| == length && IsTuple(j, t)
  }

  lemma HasTupleIff(j: Json, length: nat)
    ensures ToTuple(j, length).Some? <==> HasTuple(j, length)
  {
    if ToTuple(j, length).Some? {
      ToTupleIff(j, ToTuple(j, length).value);
    }
    if HasTuple(j, length) {
      var t :| |t| == length && IsTuple(j, t);
      ToTupleIff(j, t);
    }
  }

  // ---- which files unset accepts

  ghost predicate IsNumber(s: string) {
    exists n :: Reads(s, n)
  }

  lemma IsNumberIff(s: string)
    ensures ParseInt(s).Some? <==> IsNumber(s)
  {
    if ParseInt(s).Some? {
      ParseIntIff(s, ParseInt(s).value);
    }
    if IsNumber(s) {
      var n :| Reads(s, n);
      ParseIntIff(s, n);
    }
  }

  ghost predicate GoodTuples(fields: Dict<string, Json>, length: nat) {
    forall k :: k in fields.keys ==> fields.Has(k) && IsNumber(k) && HasTuple(fields.At(k), length)
  }

  ghost predicate GoodQos(fields: Dict<string, Json>) {
    forall k :: k in fields.keys ==>
      fields.Has(k) && IsNumber(k) && fields.At(k).Obj? && GoodTuples(fields.At(k).fields, 5)
  }

  lemma {:induction false} CollectsIff<V>(keys: seq<string>, entry: string -> Option<(string, V)>)
    ensures Collect(keys, entry).Some? <==> forall k :: k in keys ==> entry(k).Some?
  {
    if keys != [] {
      SplitLast(keys);
      CollectsIff(keys[..|keys| - 1], entry);
    }
  }

  lemma TuplesIff(fields: Dict<string, Json>, length: nat)
    ensures ParseTuples(fields, length).Some? <==> GoodTuples(fields, length)
  {
    CollectsIff(fields.keys, TupleEntry(fields, length));
    forall k | fields.Has(k)
      ensures TupleEntry(fields, length)(k).Some? <==> IsNumber(k) && HasTuple(fields.At(k), length)
    {
      IsNumberIff(k);
      HasTupleIff(fields.At(k), length);
    }
  }

  lemma MastersIff(fields: Dict<string, Json>)
    ensures ParseMasters(fields).Some? <==> GoodTuples(fields, 5)
  {
    CollectsIff(fields.keys, MasterEntry(fields));
    forall k | fields.Has(k)
      ensures MasterEntry(fields)(k).Some? <==> IsNumber(k) && HasTuple(fields.At(k), 5)
    {
      IsNumberIff(k);
      HasTupleIff(fields.At(k), 5);
    }
  }

  lemma QosIff(fields: Dict<string, Json>)
    ensures ParseQos(fields).Some? <==> GoodQos(fields)
  {
    CollectsIff(fields.keys, QosEntries(fields));
    forall k | fields.Has(k)
      ensures QosEntries(fields)(k).Some? <==>
              IsNumber(k) && fields.At(k).Obj? && GoodTuples(fields.At(k).fields, 5)
    {
      IsNumberIff(k);
      if fields.At(k).Obj? {
        MastersIff(fields.At(k).fields);
      }
    }
  }

  /** The part of the file under a key that may be missing. */
  ghost predicate GoodPart(fields: Dict<string, Json>, key: string, length: nat) {
    fields.Has(key) ==> fields.At(key).Obj? && GoodTuples(fields.At(key).fields, length)
  }

  ghost predicate GoodState(j: Json) {
    && j.Obj? && j.fields.Has("original_qos") && j.fields.At("original_qos").Obj?
    && GoodQos(j.fields.At("original_qos").fields)
    && GoodPart(j.fields, "original_sdma_mata", 4) && GoodPart(j.fields, "original_fuse", 3)
    && j.fields.Has("printed_commands") && j.fields.At("printed_commands").Arr?
    && forall i :: 0 <= i < |j.fields.At("printed_commands").items| ==> j.fields.At("printed_commands").items[i].Text?
  }

  lemma PartIff(fields: Dict<string, Json>, key: string, length: nat)
    ensures GoodPart(fields, key, length) <==>
            ObjectField(fields, key).Some? && ParseTuples(ObjectField(fields, key).value, length).Some?
  {
    if ObjectField(fields, key).Some? {
      TuplesIff(ObjectField(fields, key).value, length);
    }
  }

  lemma StateIff(j: Json)
    ensures ParseState(j).Some? <==> GoodState(j)
  {
    if j.Obj? {
      PartIff(j.fields, MATA, 4);
      PartIff(j.fields, FUSE, 3);
      if j.fields.Has(QOS) && j.fields.At(QOS).Obj? {
        QosIff(j.fields.At(QOS).fields);
      }
    }
  }

  /**
   Unset accepts exactly the files with numbers for keys and lists of 5, 4 and 3 integers for values, and
   rejects and removes every other file without touching the driver.
   */
  lemma AcceptsIff(s: Sys, f: Faults)
    ensures Unset(s, f).1 == None <==> s.file.Holds? && GoodState(s.file.json)
    ensures Unset(s, f).1 == Some(NoStateFile) <==> s.file.Absent?
    ensures Unset(s, f).1 != None ==> Unset(s, f).0.driver == s.driver
    ensures Unset(s, f).0.file == Absent
  {
    if s.file.Holds? {
      StateIff(s.file.json);
    }
  }

  // ---- which settings an accepted file stands for

  /** Entry i is the last of the keys that gives something under k. */
  ghost predicate LastFor<V(!new)>(keys: seq<string>, entry: string -> Option<(string, V)>, k: string, i: nat) {
    && i < |keys| && entry(keys[i]).Some? && entry(keys[i]).value.0 == k
    && forall j :: i < j < |keys| && entry(keys[j]).Some? ==> entry(keys[j]).value.0 != k
  }

  lemma {:induction false} CollectLast<V(!new)>(keys: seq<string>, entry: string -> Option<(string, V)>, k: string,
                                                i: nat)
    requires Collect(keys, entry).Some? && LastFor(keys, entry, k, i)
    ensures Collect(keys, entry).value.Has(k) && Collect(keys, entry).value.At(k) == entry(keys[i]).value.1
  {
    var n := |keys| - 1;
    if i < n {
      assert entry(keys[n]).Some?;
      CollectLast(keys[..n], entry, k, i);
    }
  }

  /** Of several keys for one device the last one in the file counts. */
  lemma LastTupleCounts(fields: Dict<string, Json>, length: nat, dev: int, i: nat, t: seq<int>)
    requires ParseTuples(fields, length).Some? && i < |fields.keys| && Reads(fields.keys[i], dev)
    requires forall j :: i < j < |fields.keys| ==> !Reads(fields.keys[j], dev)
    requires |t| == length && fields.Has(fields.keys[i]) && IsTuple(fields.At(fields.keys[i]), t)
    ensures ParseTuples(fields, length).value.Has(Str(dev)) && ParseTuples(fields, length).value.At(Str(dev)) == t
  {
    var keys, entry := fields.keys, TupleEntry(fields, length);
    CollectsIff(keys, entry);
    ParseIntIff(keys[i], dev);
    ToTupleIff(fields.At(keys[i]), t);
    forall j | i < j < |keys| && entry(keys[j]).Some?
      ensures entry(keys[j]).value.0 != Str(dev)
    {
      ParseIntIff(keys[j], dev);
      StrInjective(ParseInt(keys[j]).value, dev);
    }
    CollectLast(keys, entry, Str(dev), i);
  }

  // ---- what an apply starts from

  /**
   A file that holds no object raises; one that cannot be read, or has no dictionary of original QoS, is
   as good as none; else the three dictionaries are taken, and one that is missing or odd is empty.
   */
  lemma LoadIs(file: File)
    ensures Load(file).Raised? <==> file.Holds? && !file.json.Obj?
    ensures Load(file).Raised? ==> Load(file).error == StateNotObject
    ensures Load(file) == Ok(None) <==>
            file.Holds? ==>
              && file.json.Obj?
              && !(file.json.fields.Has("original_qos") && file.json.fields.At("original_qos").Obj?)
    ensures Load(file).Ok? && Load(file).value.Some? ==>
              var fields, b := file.json.fields, Load(file).value.value;
              && fields.At("original_qos") == Obj(b.qos)
              && PartIs(fields, "original_sdma_mata", b.mata) && PartIs(fields, "original_fuse", b.fuse)
  {
  }

  ghost predicate PartIs(fields: Dict<string, Json>, key: string, part: Dict<string, Json>) {
    if fields.Has(key) && fields.At(key).Obj? then fields.At(key) == Obj(part)
    else part.keys == [] && part.items == map[]
  }

  // ---- the priority table

  function Rank(l: Level): nat {
    match l case Low => 0 case Middle => 1 case High => 2
  }

  /**
   The lower of the two directions decides. At one level SDMA is one above AIV, and each level is above
   all of the level below; PCIe DMA is below or above everything.
   */
  lemma PriorityIs(p: Priority)
    ensures QosFor(p, 11) == QosFor(p, 12) == 2 * Min(Rank(p.aivD2D), Rank(p.aivH2D)) + 1
    ensures QosFor(p, 13) == 2 * Min(Rank(p.sdmaD2D), Rank(p.sdmaH2D)) + 2
    ensures QosFor(p, 7) == if p.pcieHigh then 7 else 0
    ensures forall m :: m in MASTERS <==> m in {7, 11, 12, 13}
    ensures SDMA == 13
  {
    assert MASTERS[0] == 11 && MASTERS[1] == 12 && MASTERS[2] == 13 && MASTERS[3] == 7;
  }
}
