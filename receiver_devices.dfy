/** What the receiver devices know about their detectors: the number of pixels of a frame,
    the shapes the frames are published in, the split of a raw 16-bit word into adc and gain,
    the memory cell of a frame header and the rule that tells a new train. */
module ReceiverDevices {
  import opened PixelWords

  /** The three receiver devices: JungfrauReceiver, GotthardReceiver, Gotthard2Receiver. */
  datatype Kind = Jungfrau | Gotthard | Gotthard2

  const JUNGFRAU_PIXEL_X: nat := 4 * 256
  const JUNGFRAU_PIXEL_Y: nat := 2 * 256
  const GOTTHARD_CHANNELS: nat := 1280

  /** The memory cell of a frame whose detector does not report one. */
  const NO_MEMORY_CELL: nat := 255

  /** `getDetectorSize()`: the pixels of one frame. */
  function DetectorSize(k: Kind): (r: nat)
    ensures r > 0
  {
    if k == Jungfrau then JUNGFRAU_PIXEL_X * JUNGFRAU_PIXEL_Y else GOTTHARD_CHANNELS
  }

  /** `getDisplayShape()`: rows then columns for the Jungfrau image, one line for Gotthard. */
  function DisplayShape(k: Kind): seq<nat> {
    if k == Jungfrau then [JUNGFRAU_PIXEL_Y, JUNGFRAU_PIXEL_X] else [GOTTHARD_CHANNELS]
  }

  /** `getDaqShape(framesPerTrain)`: the fastest changing dimension first, frames last. */
  function DaqShape(k: Kind, framesPerTrain: nat): seq<nat> {
    if k == Jungfrau then [JUNGFRAU_PIXEL_X, JUNGFRAU_PIXEL_Y, framesPerTrain]
    else [GOTTHARD_CHANNELS, framesPerTrain]
  }

  function Product(dims: seq<nat>): nat {
    if dims == [] then 1 else dims[0] * Product(dims[1..])
  }

  function Reversed(dims: seq<nat>): (r: seq<nat>)
    ensures |r| == |dims|
  {
    if dims == [] then [] else Reversed(dims[1..]) + [dims[0]]
  }

  /** The shapes fit the buffers: a displayed frame has the pixels of one frame, the DAQ
      array (and the pipeline array, frames first) those of a whole train, and the DAQ shape
      lists the display dimensions in reverse order before the frames. */
  lemma ShapesFit(k: Kind, framesPerTrain: nat)
    ensures Product(DisplayShape(k)) == DetectorSize(k)
    ensures Product(DaqShape(k, framesPerTrain)) == DetectorSize(k) * framesPerTrain
    ensures Product([framesPerTrain] + DisplayShape(k)) == DetectorSize(k) * framesPerTrain
    ensures DaqShape(k, framesPerTrain) == Reversed(DisplayShape(k)) + [framesPerTrain]
  {
    var d := DisplayShape(k);
    assert ([framesPerTrain] + d)[1..] == d;
    var q := DaqShape(k, framesPerTrain);
    if k == Jungfrau {
      assert d[1..][1..] == [];
      assert Product(d[1..]) == JUNGFRAU_PIXEL_X;
      assert Product(d) == JUNGFRAU_PIXEL_Y * JUNGFRAU_PIXEL_X;
      assert Reversed(d[1..][1..]) == [];
      assert Reversed(d[1..]) == [JUNGFRAU_PIXEL_X];
      assert q[1..][1..][1..] == [];
      assert Product(q[1..][1..]) == framesPerTrain;
      assert Product(q[1..]) == JUNGFRAU_PIXEL_Y * framesPerTrain;
      assert Product(q) == JUNGFRAU_PIXEL_X * (JUNGFRAU_PIXEL_Y * framesPerTrain);
    } else {
      assert d[1..] == [];
      assert q[1..][1..] == [];
      assert Product(q[1..]) == framesPerTrain;
    }
  }

  /** The adc value the device keeps of a raw word. */
  function AdcOf(k: Kind, w: Word): nat {
    if k == Gotthard2 then Adc12(w) else Adc14(w)
  }

  /** The gain the device keeps of a raw word. */
  function GainOf(k: Kind, w: Word): nat {
    if k == Gotthard2 then Gain12(w) else Gain14(w)
  }

  /** Jungfrau and Gotthard keep all 16 bits of a word (14 of adc below 2 of gain);
      Gotthard-II keeps a 12-bit adc and a 2-bit gain and drops bits 14 and 15. */
  lemma SplitOf(k: Kind, w: Word)
    ensures k != Gotthard2 ==> AdcOf(k, w) < 0x4000 && GainOf(k, w) < 4 && GainOf(k, w) * 0x4000 + AdcOf(k, w) == w
    ensures k == Gotthard2 ==> AdcOf(k, w) < 0x1000 && GainOf(k, w) < 4 && GainOf(k, w) * 0x1000 + AdcOf(k, w) == w % 0x4000
  {
    if k == Gotthard2 {
      Split12DropsTop(w);
    } else {
      Split14Lossless(w);
    }
  }

  /** The masks and shifts of `unpackRawData` on a 16-bit word are `AdcOf` and `GainOf`. */
  lemma MasksOf(k: Kind, w: bv16)
    ensures k != Gotthard2 ==> (w & 0x3FFF) as int == AdcOf(k, w as int) && ((w & 0xC000) >> 14) as int == GainOf(k, w as int)
    ensures k == Gotthard2 ==> (w & 0x0FFF) as int == AdcOf(k, w as int) && ((w & 0x3000) >> 12) as int == GainOf(k, w as int)
  {
    if k == Gotthard2 {
      Masks12(w);
    } else {
      Masks14(w);
    }
  }

  /** The words of frame `idx` in a raw buffer. */
  function FrameWords(k: Kind, data: seq<Word>, idx: nat): (r: seq<Word>)
    requires (idx + 1) * DetectorSize(k) <= |data|
    ensures |r| == DetectorSize(k)
  {
    data[idx * DetectorSize(k) .. (idx + 1) * DetectorSize(k)]
  }

  /** The adc values of frame `idx`. */
  function AdcFrame(k: Kind, data: seq<Word>, idx: nat): (r: seq<int>)
    requires (idx + 1) * DetectorSize(k) <= |data|
    ensures |r| == DetectorSize(k)
  {
    var f := FrameWords(k, data, idx);
    seq(|f|, i requires 0 <= i < |f| => AdcOf(k, f[i]))
  }

  /** The gains of frame `idx`. */
  function GainFrame(k: Kind, data: seq<Word>, idx: nat): (r: seq<int>)
    requires (idx + 1) * DetectorSize(k) <= |data|
    ensures |r| == DetectorSize(k)
  {
    var f := FrameWords(k, data, idx);
    seq(|f|, i requires 0 <= i < |f| => GainOf(k, f[i]))
  }

  /** Pixel i of an unpacked frame is word idx * DetectorSize(k) + i of the raw buffer, taken
      apart: its gain and adc put together give the word back (its low 14 bits for
      Gotthard-II). */
  lemma UnpackedFrame(k: Kind, data: seq<Word>, idx: nat, i: nat)
    requires (idx + 1) * DetectorSize(k) <= |data| && i < DetectorSize(k)
    ensures var w := data[idx * DetectorSize(k) + i];
      && (k != Gotthard2 ==> GainFrame(k, data, idx)[i] * 0x4000 + AdcFrame(k, data, idx)[i] == w)
      && (k == Gotthard2 ==> GainFrame(k, data, idx)[i] * 0x1000 + AdcFrame(k, data, idx)[i] == w % 0x4000)
  {
    assert FrameWords(k, data, idx)[i] == data[idx * DetectorSize(k) + i];
    SplitOf(k, data[idx * DetectorSize(k) + i]);
  }

  /** `s` with `t` written from position `at` on. */
  function Splice(s: seq<int>, at: nat, t: seq<int>): (r: seq<int>)
    requires at + |t| <= |s|
    ensures |r| == |s|
  {
    s[..at] + t + s[at + |t|..]
  }

  /** The second of two writes at the same place of the same length is all that is left. */
  lemma SpliceTwice(s: seq<int>, at: nat, t1: seq<int>, t2: seq<int>)
    requires at + |t1| <= |s| && |t1| == |t2|
    ensures Splice(Splice(s, at, t1), at, t2) == Splice(s, at, t2)
  {
    var u := Splice(s, at, t1);
    assert u[..at] == s[..at];
    assert u[at + |t2|..] == s[at + |t2|..];
  }

  /** Position j of a splice. */
  lemma SpliceAt(s: seq<int>, at: nat, t: seq<int>, j: nat)
    requires at + |t| <= |s| && j < |s|
    ensures Splice(s, at, t)[j] == if at <= j < at + |t| then t[j - at] else s[j]
  {
  }

  /** `unpackRawData(data, idx, adc + offset, gain + offset)`: one frame of raw words split into
      the adc and gain arrays from `offset` on. */
  method UnpackRawData(k: Kind, data: seq<Word>, idx: nat, adc: array<int>, gain: array<int>, offset: nat)
    requires (idx + 1) * DetectorSize(k) <= |data|
    requires offset + DetectorSize(k) <= adc.Length && offset + DetectorSize(k) <= gain.Length
    requires adc != gain
    modifies adc, gain
    ensures adc[..] == Splice(old(adc[..]), offset, AdcFrame(k, data, idx))
    ensures gain[..] == Splice(old(gain[..]), offset, GainFrame(k, data, idx))
  {
    var frameSize := DetectorSize(k);
    var base := idx * frameSize;
    ghost var adcFrame := AdcFrame(k, data, idx);
    ghost var gainFrame := GainFrame(k, data, idx);
    for i := 0 to frameSize
      invariant forall j | 0 <= j < adc.Length :: adc[j] == if offset <= j < offset + i then adcFrame[j - offset] else old(adc[j])
      invariant forall j | 0 <= j < gain.Length :: gain[j] == if offset <= j < offset + i then gainFrame[j - offset] else old(gain[j])
    {
      assert FrameWords(k, data, idx)[i] == data[base + i];
      adc[offset + i] := AdcOf(k, data[base + i]);
      gain[offset + i] := GainOf(k, data[base + i]);
    }
    forall j | 0 <= j < adc.Length
      ensures adc[..][j] == Splice(old(adc[..]), offset, adcFrame)[j]
    {
      SpliceAt(old(adc[..]), offset, adcFrame, j);
    }
    forall j | 0 <= j < gain.Length
      ensures gain[..][j] == Splice(old(gain[..]), offset, gainFrame)[j]
    {
      SpliceAt(old(gain[..]), offset, gainFrame, j);
    }
  }

  /** The memory cell of a frame: bits 8-11 of the header's debug field for Jungfrau
      (`(debug >> 8) & 0xF`, read here as a quotient and a remainder), 255 for the other
      detectors. */
  function MemoryCell(k: Kind, debug: nat): (r: nat)
    ensures k == Jungfrau ==> r < 16
    ensures k != Jungfrau ==> r == NO_MEMORY_CELL
  {
    if k == Jungfrau then debug / 0x100 % 0x10 else NO_MEMORY_CELL
  }

  /** `isNewTrain`: in burst mode a Jungfrau train starts with the storage cell the detector
      starts from; otherwise a train is new when its id is above the id the buffer was started
      with.  `burstMode` is the JungfrauReceiver's setting; the other devices have none. */
  predicate IsNewTrain(k: Kind, burstMode: bool, storageCellStart: int, trainId: nat, lastTrainId: nat, memoryCell: nat) {
    if k == Jungfrau && burstMode then memoryCell == storageCellStart
    else trainId > lastTrainId
  }

  /** Outside burst mode the rule only compares train ids; in burst mode it ignores them. */
  lemma NewTrainRule(k: Kind, burstMode: bool, storageCellStart: int, trainId: nat, lastTrainId: nat, memoryCell: nat)
    ensures !(k == Jungfrau && burstMode) ==>
      (IsNewTrain(k, burstMode, storageCellStart, trainId, lastTrainId, memoryCell) <==> trainId > lastTrainId)
    ensures k == Jungfrau && burstMode ==>
      (IsNewTrain(k, burstMode, storageCellStart, trainId, lastTrainId, memoryCell) <==> memoryCell == storageCellStart)
  {
  }
}
