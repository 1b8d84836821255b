/** The affinity mask written to /proc/irq: comma-separated 32-bit hexadecimal words, highest first. */
module CpuMask {
  import opened Prelude

  function Pow2(n: nat): (r: nat)
    ensures r > 0
  {
    if n == 0 then 1 else 2 * Pow2(n - 1)
  }

  lemma {:induction false} Pow2Add(a: nat, b: nat)
    ensures Pow2(a + b) == Pow2(a) * Pow2(b)
  {
    if a > 0 {
      Pow2Add(a - 1, b);
    }
  }

  lemma {:induction false} Pow2Below(a: nat, b: nat)
    requires a < b
    ensures Pow2(a) < Pow2(b)
  {
    if a + 1 < b {
      Pow2Below(a, b - 1);
    }
    assert Pow2(b) == 2 * Pow2(b - 1);
  }

  // ---- the hexadecimal format `{value:08x}`

  const DIGITS := "0123456789abcdef"

  function Hex(v: nat): string {
    if v < 16 then [DIGITS[v]] else Hex(v / 16) + [DIGITS[v % 16]]
  }

  function Zeros(k: nat): string {
    seq(k, _ => '0')
  }

  function Hex8(v: nat): string {
    var h := Hex(v);
    if |h| < 8 then Zeros(8 - |h|) + h else h
  }

  // ---- reading a mask back

  function DigitValue(c: char): Option<nat> {
    if '0' <= c <= '9' then Some(c as nat - '0' as nat)
    else if 'a' <= c <= 'f' then Some(c as nat - 'a' as nat + 10)
    else None
  }

  function WordValue(w: string): Option<nat> {
    if w == "" then Some(0)
    else
      var high, low := WordValue(w[..|w| - 1]), DigitValue(w[|w| - 1]);
      if high.Some? && low.Some? then Some(high.value * 16 + low.value) else None
  }

  const WORD := 0x1_0000_0000

  function Combine(high: Option<nat>, low: Option<nat>): Option<nat> {
    if high.Some? && low.Some? then Some(high.value * WORD + low.value) else None
  }

  /** The number a mask of eight-digit words denotes; anything else is not a mask. */
  function MaskValue(mask: string): Option<nat> {
    if |mask| == 8 then WordValue(mask)
    else if |mask| > 9 && mask[|mask| - 9] == ',' then
      Combine(MaskValue(mask[..|mask| - 9]), WordValue(mask[|mask| - 8..]))
    else None
  }

  lemma DigitRoundTrip(d: nat)
    requires d < 16
    ensures DigitValue(DIGITS[d]) == Some(d)
  {
  }

  lemma {:induction false} HexRoundTrip(v: nat)
    ensures WordValue(Hex(v)) == Some(v)
  {
    DigitRoundTrip(v % 16);
    if v < 16 {
      assert Hex(v)[..0] == "";
    } else {
      HexRoundTrip(v / 16);
      assert Hex(v)[..|Hex(v)| - 1] == Hex(v / 16);
    }
  }

  lemma {:induction false} HexLength(v: nat, k: nat)
    requires k > 0 && v < Pow2(4 * k)
    ensures 1 <= |Hex(v)| <= k
  {
    if v >= 16 {
      assert k > 1;
      Pow2Add(4, 4 * (k - 1));
      assert Pow2(4) == 16;
      HexLength(v / 16, k - 1);
    }
  }

  lemma {:induction false} LeadingZeros(k: nat, w: string)
    ensures WordValue(Zeros(k) + w) == WordValue(w)
  {
    var z := Zeros(k);
    if w != "" {
      assert (z + w)[..|z + w| - 1] == z + w[..|w| - 1];
      LeadingZeros(k, w[..|w| - 1]);
    } else {
      assert z + w == z;
      ZerosValue(k);
    }
  }

  lemma {:induction false} ZerosValue(k: nat)
    ensures WordValue(Zeros(k)) == Some(0)
  {
    if k > 0 {
      assert Zeros(k)[..k - 1] == Zeros(k - 1);
      ZerosValue(k - 1);
    }
  }

  lemma Hex8RoundTrip(v: nat)
    requires v < Pow2(32)
    ensures |Hex8(v)| == 8 && WordValue(Hex8(v)) == Some(v)
  {
    HexLength(v, 8);
    HexRoundTrip(v);
    LeadingZeros(8 - |Hex(v)|, Hex(v));
  }

  lemma Split9(mask: string, word: string, next: string)
    requires |word| == 8 && next == mask + [','] + word
    ensures |next| == |mask| + 9 && next[..|next| - 9] == mask && next[|next| - 9] == ',' && next[|next| - 8..] == word
  {
  }

  lemma AppendWord(mask: string, word: string, next: string)
    requires |mask| >= 8 && |word| == 8 && next == mask + [','] + word
    ensures MaskValue(next) == Combine(MaskValue(mask), WordValue(word))
  {
    Split9(mask, word, next);
  }

  lemma Shift32(cpu: nat)
    ensures Pow2(cpu + 32) == Pow2(cpu) * WORD
  {
    Pow2Add(8, 8);
    Pow2Add(16, 16);
    Pow2Add(cpu, 32);
  }

  lemma AppendZeroWord(mask: string, cpu: nat)
    requires |mask| >= 8 && MaskValue(mask) == Some(Pow2(cpu))
    ensures MaskValue(mask + [','] + Zeros(8)) == Some(Pow2(cpu + 32))
  {
    ZerosValue(8);
    AppendWord(mask, Zeros(8), mask + [','] + Zeros(8));
    Shift32(cpu);
  }

  lemma FirstWord(bit: nat)
    requires bit < 32
    ensures |Hex8(Pow2(bit))| == 8 && MaskValue(Hex8(Pow2(bit))) == Some(Pow2(bit))
  {
    Pow2Below(bit, 32);
    Hex8RoundTrip(Pow2(bit));
  }

  /** Read back as a mask of eight-digit words, the result is the bit of this CPU and no other. */
  method CpuToMask(cpu: nat) returns (mask: string)
    ensures MaskValue(mask) == Some(Pow2(cpu))
    ensures |mask| == 9 * (cpu / 32) + 8
  {
    var group, bit := cpu / 32, cpu % 32;
    FirstWord(bit);
    mask := Hex8(Pow2(bit));
    ghost var shown: nat := bit;
    for g := 0 to group
      invariant MaskValue(mask) == Some(Pow2(shown)) && shown == bit + 32 * g
      invariant |mask| == 9 * g + 8
    {
      AppendZeroWord(mask, shown);
      mask := mask + [','] + Zeros(8);
      shown := shown + 32;
    }
  }
}
