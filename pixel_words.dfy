/** The 16-bit pixel words of the raw data: the simulated receivers pack a gain into the top
    bits of a simulated adc value, and the receiver devices split the words again.  Jungfrau and
    Gotthard use a 14-bit adc and a 2-bit gain (bits 14-15); Gotthard-II a 12-bit adc and a
    2-bit gain (bits 12-13).  Words are numbers below 2^16; the lemmas at the end show that the
    masks and shifts of the C++ code compute exactly these quotients and remainders. */
module PixelWords {

  type Word = w: int | 0 <= w < 0x1_0000

  /** `w & 0x3FFF`: the Jungfrau and Gotthard adc value. */
  function Adc14(w: int): (r: nat)
    ensures r < 0x4000
  {
    w % 0x4000
  }

  /** `(w & 0xC000) >> 14`: the Jungfrau and Gotthard gain bits. */
  function Gain14(w: int): (r: int)
    ensures 0 <= w < 0x1_0000 ==> 0 <= r < 4
  {
    w / 0x4000
  }

  /** `w & 0x0FFF`: the Gotthard-II adc value. */
  function Adc12(w: int): (r: nat)
    ensures r < 0x1000
  {
    w % 0x1000
  }

  /** `(w & 0x3000) >> 12`: the Gotthard-II gain bits. */
  function Gain12(w: int): (r: nat)
    ensures r < 4
  {
    w / 0x1000 % 4
  }

  /** The 14-bit split loses nothing: gain and adc put together give the word back. */
  lemma Split14Lossless(w: Word)
    ensures Gain14(w) * 0x4000 + Adc14(w) == w
  {
  }

  /** The 12-bit split keeps bits 0-13 and drops bits 14-15. */
  lemma Split12DropsTop(w: Word)
    ensures Gain12(w) * 0x1000 + Adc12(w) == w % 0x4000
  {
    var q := w / 0x1000;
    assert w == q * 0x1000 + w % 0x1000;
    assert q == (q / 4) * 4 + q % 4;
    DivMod4000(w, q / 4, (q % 4) * 0x1000 + w % 0x1000);
  }

  lemma DivMod4000(w: int, q: int, r: int)
    requires 0 <= r < 0x4000 && w == q * 0x4000 + r
    ensures w / 0x4000 == q && w % 0x4000 == r
  {
  }

  lemma DivMod1000(w: int, q: int, r: int)
    requires 0 <= r < 0x1000 && w == q * 0x1000 + r
    ensures w / 0x1000 == q && w % 0x1000 == r
  {
  }

  lemma DivMod4(w: int, q: int, r: int)
    requires 0 <= r < 4 && w == q * 4 + r
    ensures w / 4 == q && w % 4 == r
  {
  }

  /** A simulated sample: `s = value; s |= (gain << 14)` on a short, for a value below 2^14.
      Only the two low bits of the gain reach the 16-bit word. */
  function Packed(gain: int, value: nat): Word
    requires value < 0x4000
  {
    (gain % 4) * 0x4000 + value
  }

  /** The receivers' split takes a packed sample apart again. */
  lemma PackedUnpacks(gain: int, value: nat)
    requires value < 0x4000
    ensures Adc14(Packed(gain, value)) == value
    ensures Gain14(Packed(gain, value)) == gain % 4
  {
    DivMod4000(Packed(gain, value), gain % 4, value);
  }

  /** A baseline and a noise amplitude: the samples lie in [baseline, baseline + noise). */
  datatype Level = Level(baseline: nat, noise: nat) {
    predicate Valid() {
      0 < noise && baseline + noise <= 0x4000
    }
  }

  /** `baseline + rand() % noise`, for a draw `r` of `rand()`. */
  function Value(l: Level, r: nat): (v: nat)
    requires l.Valid()
    ensures l.baseline <= v < l.baseline + l.noise
  {
    l.baseline + r % l.noise
  }

  /** The block the simulation loop writes: sample i packs draw `rnd(i)`. */
  function Samples(n: nat, gain: int, l: Level, rnd: nat -> nat): (r: seq<Word>)
    requires l.Valid()
    ensures |r| == n
  {
    seq<Word>(n, i requires 0 <= i < n => Packed(gain, Value(l, rnd(i))))
  }

  /** Every sample of a block carries the gain bits and an adc inside the level's band. */
  lemma SamplesUnpack(n: nat, gain: int, l: Level, rnd: nat -> nat, i: nat)
    requires l.Valid() && i < n
    ensures l.baseline <= Adc14(Samples(n, gain, l, rnd)[i]) < l.baseline + l.noise
    ensures Gain14(Samples(n, gain, l, rnd)[i]) == gain % 4
  {
    PackedUnpacks(gain, Value(l, rnd(i)));
  }

  /** The simulation's fill loop: writes the first n words of `data` with a sample block and
      leaves the rest alone. */
  method FillSamples(data: array<Word>, n: nat, gain: int, l: Level, rnd: nat -> nat)
    requires n <= data.Length && l.Valid()
    modifies data
    ensures data[..n] == Samples(n, gain, l, rnd)
    ensures data[n..] == old(data[n..])
  {
    for i := 0 to n
      invariant data[..i] == Samples(n, gain, l, rnd)[..i]
      invariant data[n..] == old(data[n..])
    {
      data[i] := Packed(gain, Value(l, rnd(i)));
    }
  }

  // ----- the bit operations of the C++ code -----

  lemma Split14(w: bv16)
    ensures w == (w & 0x3FFF) | (((w & 0xC000) >> 14) << 14)
    ensures (w & 0x3FFF) < 0x4000 && ((w & 0xC000) >> 14) < 4
  {
  }

  lemma Split12(w: bv16)
    ensures w == (w & 0x0FFF) | (((w & 0x3000) >> 12) << 12) | ((w >> 14) << 14)
    ensures (w & 0x0FFF) < 0x1000 && ((w & 0x3000) >> 12) < 4 && (w >> 14) < 4
    ensures (w & 0x0FFF) | (((w & 0x3000) >> 12) << 12) < 0x4000
  {
  }

  lemma Or14(g: bv16, v: bv16)
    requires g < 4 && v < 0x4000
    ensures (v | (g << 14)) as int == g as int * 0x4000 + v as int
  {
  }

  lemma Or12(g: bv16, v: bv16)
    requires g < 4 && v < 0x1000
    ensures (v | (g << 12)) as int == g as int * 0x1000 + v as int
  {
  }

  /** `w & 0x3FFF` and `(w & 0xC000) >> 14` are `Adc14` and `Gain14`. */
  lemma Masks14(w: bv16)
    ensures (w & 0x3FFF) as int == Adc14(w as int)
    ensures ((w & 0xC000) >> 14) as int == Gain14(w as int)
  {
    Split14(w);
    Or14((w & 0xC000) >> 14, w & 0x3FFF);
    DivMod4000(w as int, ((w & 0xC000) >> 14) as int, (w & 0x3FFF) as int);
  }

  /** `w & 0x0FFF` and `(w & 0x3000) >> 12` are `Adc12` and `Gain12`. */
  lemma Masks12(w: bv16)
    ensures (w & 0x0FFF) as int == (w as int) % 0x1000
    ensures ((w & 0x3000) >> 12) as int == (w as int) / 0x1000 % 4
  {
    var g := (w & 0x3000) >> 12;
    var v := w & 0x0FFF;
    var t := w >> 14;
    Split12(w);
    Or12(g, v);
    Or14(t, v | (g << 12));
    DivMod1000(w as int, t as int * 4 + g as int, v as int);
    DivMod4(t as int * 4 + g as int, t as int, g as int);
  }

  /** `s |= (gain << 14)` on a sample below 2^14 puts the two gain bits on top: `Packed`. */
  lemma PackIsOr(g: bv16, v: bv16)
    requires g < 4 && v < 0x4000
    ensures (v | (g << 14)) as int == Packed(g as int, v as int)
  {
    Or14(g, v);
    GainFits(g as int);
  }

  lemma GainFits(g: int)
    requires 0 <= g < 4
    ensures Packed(g, 0) == g * 0x4000 && forall v: nat | v < 0x4000 :: Packed(g, v) == g * 0x4000 + v
  {
  }
}
