/** Decimal text and JSON values, as the state file of the QoS tool uses them. */
module QosText {
  import opened Prelude
  import opened Decimal
  import opened Dictionaries

  function Digits(n: nat): (s: string)
    ensures s != "" && AllDigits(s)
  {
    if n < 10 then [(n as char) + '0'] else Digits(n / 10) + [((n % 10) as char) + '0']
  }

  /** `str(n)`. */
  function Str(n: int): string {
    if n < 0 then "-" + Digits(-n) else Digits(n)
  }

  /** `int(s)` on text: an optional sign and decimal digits. */
  function ParseInt(s: string): Option<int> {
    if s == "" then None
    else if s[0] == '-' then if s[1..] != "" && AllDigits(s[1..]) then Some(-(DigitsValue(s[1..]) as int)) else None
    else if s[0] == '+' then if s[1..] != "" && AllDigits(s[1..]) then Some(DigitsValue(s[1..])) else None
    else if AllDigits(s) then Some(DigitsValue(s)) else None
  }

  lemma {:induction false} DigitsRoundTrip(n: nat)
    ensures DigitsValue(Digits(n)) == n
  {
    var s := Digits(n);
    if n < 10 {
      assert s[..0] == "";
    } else {
      DigitsRoundTrip(n / 10);
      assert s[..|s| - 1] == Digits(n / 10);
    }
  }

  lemma IntRoundTrip(n: int)
    ensures ParseInt(Str(n)) == Some(n)
  {
    if n < 0 {
      DigitsRoundTrip(-n);
      assert Str(n)[1..] == Digits(-n);
    } else {
      DigitsRoundTrip(n);
      assert '0' <= Digits(n)[0] <= '9';
    }
  }

  /** Different numbers have different text, so they are different dictionary keys. */
  lemma StrInjective(m: int, n: int)
    ensures Str(m) == Str(n) ==> m == n
  {
    IntRoundTrip(m);
    IntRoundTrip(n);
  }

  datatype Json =
    | Null
    | Bool(b: bool)
    | Num(n: int)
    | Real(r: real)
    | Text(s: string)
    | Arr(items: seq<Json>)
    | Obj(fields: Dict<string, Json>)

  function Truncate(r: real): int {
    if r >= 0.0 then r.Floor else -((-r).Floor)
  }

  /** `int(x)` on a JSON value. */
  function ToInt(j: Json): Option<int> {
    match j
    case Num(n) => Some(n)
    case Bool(b) => Some(if b then 1 else 0)
    case Real(r) => Some(Truncate(r))
    case Text(s) => ParseInt(s)
    case _ => None
  }

  function Nums(ns: seq<int>): (r: seq<Json>)
    ensures |r| == |ns|
  {
    seq(|ns|, i requires 0 <= i < |ns| => Num(ns[i]))
  }

  /** A list of the given length whose elements all convert to integers. */
  function ToTuple(j: Json, length: nat): (r: Option<seq<int>>)
    ensures r.Some? ==> |r.value| == length
  {
    if j.Arr? && |j.items| == length && forall i :: 0 <= i < length ==> ToInt(j.items[i]).Some?
    then Some(seq(length, i requires 0 <= i < length => ToInt(j.items[i]).value))
    else None
  }

  lemma TupleRoundTrip(ns: seq<int>)
    ensures ToTuple(Arr(Nums(ns)), |ns|) == Some(ns)
  {
    var j := Arr(Nums(ns));
    assert forall i :: 0 <= i < |ns| ==> ToInt(j.items[i]) == Some(ns[i]);
    assert ToTuple(j, |ns|).value == ns;
  }
}
