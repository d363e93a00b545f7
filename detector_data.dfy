/** `DetectorData`: the frames of one train a receiver device collects before it writes them
    to its output channels.  The adc and gain arrays hold `size` pixels (frames per train
    times the pixels of a frame); the memory cell, frame number, bunch id and timestamp
    vectors hold one entry per frame.  The train stamp the buffer was started with is kept as
    its train id; timestamps are kept as whole numbers. */
module TrainBuffers {
  import opened ReceiverDevices

  /** `accumulatedFrames` is an unsigned short. */
  const USHORT_MOD: nat := 0x1_0000

  /** What a buffer holds, as values. */
  datatype Buffer = Buffer(
    lastTrainId: nat,
    accumulatedFrames: nat,
    adc: seq<int>,
    gain: seq<int>,
    memoryCell: seq<int>,
    frameNumber: seq<int>,
    bunchId: seq<int>,
    timestamp: seq<int>)
  {
    /** The per-pixel arrays hold `framesPerTrain` frames of `detectorSize` pixels and the
        per-frame vectors `framesPerTrain` entries. */
    predicate Sized(detectorSize: nat, framesPerTrain: nat) {
      && |adc| == detectorSize * framesPerTrain && |gain| == detectorSize * framesPerTrain
      && |memoryCell| == framesPerTrain && |frameNumber| == framesPerTrain
      && |bunchId| == framesPerTrain && |timestamp| == framesPerTrain
    }
  }

  function Filled(n: nat, v: int): (r: seq<int>)
    ensures |r| == n
  {
    seq(n, _ => v)
  }

  /** `std::vector::resize(n)`: the first n entries are kept, new entries are 0. */
  function Resized(v: seq<int>, n: nat): (r: seq<int>)
    ensures |r| == n
  {
    if n <= |v| then v[..n] else v + Filled(n - |v|, 0)
  }

  /** A resized vector agrees with the old one where both have entries and is 0 beyond. */
  lemma ResizedKeeps(v: seq<int>, n: nat, i: nat)
    requires i < n
    ensures Resized(v, n)[i] == if i < |v| then v[i] else 0
  {
  }

  /** What `reset()` leaves: no frames, adc and gain all 0, every memory cell 255, frame
      numbers, bunch ids and timestamps all 0; the train stamp and every length are kept.
      The bunch ids are cleared over the frame-number vector's length, which `resize` keeps
      equal to theirs. */
  function Cleared(c: Buffer): Buffer {
    Buffer(c.lastTrainId, 0, Filled(|c.adc|, 0), Filled(|c.gain|, 0), Filled(|c.memoryCell|, NO_MEMORY_CELL),
      Filled(|c.frameNumber|, 0), Filled(|c.frameNumber|, 0), Filled(|c.timestamp|, 0))
  }

  /** An empty buffer for trains of `framesPerTrain` frames of `detectorSize` pixels. */
  function Empty(lastTrainId: nat, detectorSize: nat, framesPerTrain: nat): (r: Buffer)
    ensures r.Sized(detectorSize, framesPerTrain)
  {
    var n := detectorSize * framesPerTrain;
    Buffer(lastTrainId, 0, Filled(n, 0), Filled(n, 0), Filled(framesPerTrain, NO_MEMORY_CELL),
      Filled(framesPerTrain, 0), Filled(framesPerTrain, 0), Filled(framesPerTrain, 0))
  }

  /** Resetting forgets everything but the sizes and the train stamp: a reset buffer of a
      given size is the empty one, whatever it held, and resetting twice is resetting once. */
  lemma ClearedIsEmpty(c: Buffer, detectorSize: nat, framesPerTrain: nat)
    requires c.Sized(detectorSize, framesPerTrain)
    ensures Cleared(c) == Empty(c.lastTrainId, detectorSize, framesPerTrain)
    ensures Cleared(Cleared(c)) == Cleared(c)
    ensures Cleared(c).accumulatedFrames == 0
  {
  }

  class DetectorData {
    var lastTrainId: nat
    var accumulatedFrames: nat
    var size: nat
    var adc: array<int>
    var gain: array<int>
    var memoryCell: seq<int>
    var frameNumber: seq<int>
    var bunchId: seq<int>
    var timestamp: seq<int>

    ghost predicate Valid()
      reads this
    {
      && adc != gain && adc.Length == size && gain.Length == size
      && |bunchId| == |frameNumber| && accumulatedFrames < USHORT_MOD
    }

    function Contents(): Buffer
      reads this, adc, gain
    {
      Buffer(lastTrainId, accumulatedFrames, adc[..], gain[..], memoryCell, frameNumber, bunchId, timestamp)
    }

    /** No frames, no pixels, empty vectors; the default time stamp has train id 0.  The C++
        arrays start as null pointers, here as empty arrays. */
    constructor()
      ensures Valid() && Contents() == Buffer(0, 0, [], [], [], [], [], []) && size == 0
      ensures fresh(adc) && fresh(gain)
    {
      lastTrainId := 0;
      accumulatedFrames := 0;
      size := 0;
      adc := new int[0];
      gain := new int[0];
      memoryCell := [];
      frameNumber := [];
      bunchId := [];
      timestamp := [];
    }

    /** `free()`: the arrays are released and the size is 0; the vectors stay. */
    method Free()
      requires Valid()
      modifies this
      ensures Valid() && size == 0 && fresh(adc) && fresh(gain)
      ensures Contents() == old(Contents()).(adc := [], gain := [])
    {
      adc := new int[0];
      gain := new int[0];
      size := 0;
    }

    /** `resize(detectorSize, framesPerTrain)`: new arrays for the pixels of a whole train, and
        each per-frame vector resized to one entry per frame.  The new arrays' contents are
        left unstated: C++ leaves them indeterminate until `reset()`. */
    method Resize(detectorSize: nat, framesPerTrain: nat)
      requires Valid()
      modifies this
      ensures Valid() && size == detectorSize * framesPerTrain && fresh(adc) && fresh(gain)
      ensures lastTrainId == old(lastTrainId) && accumulatedFrames == old(accumulatedFrames)
      ensures memoryCell == Resized(old(memoryCell), framesPerTrain)
      ensures frameNumber == Resized(old(frameNumber), framesPerTrain)
      ensures bunchId == Resized(old(bunchId), framesPerTrain)
      ensures timestamp == Resized(old(timestamp), framesPerTrain)
      ensures Contents().Sized(detectorSize, framesPerTrain)
    {
      Free();
      size := detectorSize * framesPerTrain;
      adc := new int[size];
      gain := new int[size];
      memoryCell := Resized(memoryCell, framesPerTrain);
      frameNumber := Resized(frameNumber, framesPerTrain);
      bunchId := Resized(bunchId, framesPerTrain);
      timestamp := Resized(timestamp, framesPerTrain);
    }

    /** `reset()`: the memsets of every array and vector. */
    method Reset()
      requires Valid()
      modifies this, adc, gain
      ensures Valid() && adc == old(adc) && gain == old(gain) && size == old(size)
      ensures Contents() == Cleared(old(Contents()))
    {
      accumulatedFrames := 0;
      forall i | 0 <= i < adc.Length {
        adc[i] := 0;
      }
      forall i | 0 <= i < gain.Length {
        gain[i] := 0;
      }
      memoryCell := Filled(|memoryCell|, NO_MEMORY_CELL);
      frameNumber := Filled(|frameNumber|, 0);
      bunchId := Filled(|frameNumber|, 0);
      timestamp := Filled(|timestamp|, 0);
      assert adc[..] == Filled(adc.Length, 0);
      assert gain[..] == Filled(gain.Length, 0);
    }

    /** `resetTimestamp(t)`: only the train stamp changes. */
    method ResetTimestamp(trainId: nat)
      requires Valid()
      modifies this
      ensures Valid() && adc == old(adc) && gain == old(gain) && size == old(size)
      ensures Contents() == old(Contents()).(lastTrainId := trainId)
    {
      lastTrainId := trainId;
    }
  }
}
