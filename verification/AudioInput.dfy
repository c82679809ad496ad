// The ring buffer and the frame interface of src/audio_input.cpp.
module AudioInput {
  import opened Recent
  import opened SampleStream

  // ---------------------------------------------------------------------------------------------
  // Positions in the ring

  /** The slot that is i places behind the head. */
  function Slot(head: nat, i: nat, capacity: nat): (k: nat)
    requires head < capacity && i <= capacity
    ensures k < capacity && k == if head + i < capacity then head + i else head + i - capacity
  {
    WrapOnce(head + i, capacity);
    (head + i) % capacity
  }

  lemma WrapOnce(x: nat, n: nat)
    requires n > 0 && x < 2 * n
    ensures x % n == if x < n then x else x - n
  {
    if x < n { ModIs(x, n, 0, x); } else { ModIs(x, n, 1, x - n); }
  }

  lemma SlotNext(head: nat, i: nat, capacity: nat)
    requires head < capacity && i < capacity
    ensures (Slot(head, i, capacity) + 1) % capacity == Slot(head, i + 1, capacity)
  {
    WrapOnce(Slot(head, i, capacity) + 1, capacity);
  }

  lemma PrefixSnoc<T>(s: seq<T>, i: nat)
    requires i < |s|
    ensures s[..i + 1] == s[..i] + [s[i]]
  {
  }

  lemma LastNSnoc<T>(before: seq<T>, s: seq<T>, x: T, n: nat)
    ensures LastN(before + (s + [x]), n) == LastN(LastN(before + s, n) + [x], n)
  {
    assert before + (s + [x]) == before + s + [x];
    LastNOnce(before + s, x, n);
  }

  class SampleRingBuffer<T(0)> {
    const data: array<T>
    var head: nat
    var size: nat
    var droppedSamples: nat

    ghost predicate Valid()
      reads this
    {
      size <= data.Length && if data.Length == 0 then head == 0 else head < data.Length
    }

    /** The samples that are held, oldest first. */
    ghost function Contents(): (s: seq<T>)
      reads this, data
      requires Valid()
      ensures |s| == size
    {
      seq(size, i requires 0 <= i < size && Valid() reads this, data => data[Slot(head, i, data.Length)])
    }

    constructor (capacity: nat)
      ensures Valid() && fresh(data) && data.Length == capacity && head == 0 && droppedSamples == 0 && Contents() == []
    {
      data := new T[capacity];
      head, size, droppedSamples := 0, 0, 0;
    }

    /** One round of the loop of push: into a free slot, or over the oldest sample. */
    method PushOne(x: T)
      requires Valid() && data.Length > 0
      modifies this, data
      ensures Valid() && Contents() == LastN(old(Contents()) + [x], data.Length)
      ensures size == Smaller(old(size) + 1, data.Length)
      ensures old(size) < data.Length ==> head == old(head) && droppedSamples == old(droppedSamples)
      ensures old(size) == data.Length ==>
        head == (old(head) + 1) % data.Length && droppedSamples == old(droppedSamples) + 1
    {
      ghost var before := Contents();
      if size < data.Length {
        data[Slot(head, size, data.Length)] := x;
        size := size + 1;
        assert Contents() == before + [x];
      } else {
        data[head] := x;
        WrapOnce(head + 1, data.Length);
        head := (head + 1) % data.Length;
        droppedSamples := droppedSamples + 1;
        assert Contents() == before[1..] + [x];
      }
    }

    /** Adds samples, keeping the newest; if the lock is taken, all of them are dropped. A push that fills the
        buffer by itself starts it afresh. */
    method Push(samples: seq<T>, contended: bool)
      requires Valid()
      modifies this, data
      ensures Valid() && Contents() == Pushed(data.Length, old(Contents()), samples, contended)
      ensures droppedSamples == old(droppedSamples) + Dropped(data.Length, old(size), |samples|, contended)
      ensures data.Length == 0 || contended || samples == [] ==> head == old(head)
      ensures data.Length > 0 && !contended && |samples| >= data.Length ==> head == 0
      ensures data.Length > 0 && !contended && |samples| < data.Length ==>
        head == (old(head) + Dropped(data.Length, old(size), |samples|, false)) % data.Length
    {
      ghost var before := Contents();
      if |samples| == 0 || data.Length == 0 {
        assert samples == [] ==> before + samples == before;
        if data.Length > 0 { WrapOnce(head, data.Length); }
        return;
      }
      if contended {
        droppedSamples := droppedSamples + |samples|;
        return;
      }
      var newest := samples;
      if |samples| >= data.Length {
        newest := samples[|samples| - data.Length..];
        head, size := 0, 0;
        assert LastN(before + samples, data.Length) == newest == [] + newest;
      }
      WrapOnce(head, data.Length);
      PushLoop(newest);
    }

    /** The loop of push. */
    method PushLoop(samples: seq<T>)
      requires Valid() && data.Length > 0 && |samples| <= data.Length
      modifies this, data
      ensures Valid() && Contents() == LastN(old(Contents()) + samples, data.Length)
      ensures var over := OverBy(data.Length, old(size) + |samples|);
        droppedSamples == old(droppedSamples) + over && head == Slot(old(head), over, data.Length)
    {
      ghost var before, over := Contents(), 0;
      assert before + [] == before;
      for i := 0 to |samples|
        invariant Valid() && Contents() == LastN(before + samples[..i], data.Length)
        invariant size == Smaller(old(size) + i, data.Length)
        invariant over == OverBy(data.Length, old(size) + i) <= i
        invariant droppedSamples == old(droppedSamples) + over && head == Slot(old(head), over, data.Length)
      {
        PrefixSnoc(samples, i);
        LastNSnoc(before, samples[..i], samples[i], data.Length);
        SlotNext(old(head), over, data.Length);
        PushOne(samples[i]);
        over := OverBy(data.Length, old(size) + i + 1);
      }
      assert samples[..|samples|] == samples;
    }

    static function OverBy(capacity: nat, count: nat): nat {
      if count <= capacity then 0 else count - capacity
    }

    /** Takes up to maxSamples of the oldest samples out. */
    method Read(maxSamples: nat) returns (out: seq<T>)
      requires Valid()
      modifies this`head, this`size
      ensures Valid() && out == old(Contents())[..Smaller(maxSamples, old(size))]
      ensures Contents() == old(Contents())[Smaller(maxSamples, old(size))..]
      ensures data.Length > 0 ==> head == (old(head) + |out|) % data.Length
    {
      if maxSamples == 0 || size == 0 {
        if data.Length > 0 { WrapOnce(head, data.Length); }
        return [];
      }
      var count := Smaller(maxSamples, size);
      out := [];
      for i := 0 to count
        invariant out == Contents()[..i]
      {
        out := out + [data[Slot(head, i, data.Length)]];
      }
      Advance(count);
    }

    method Advance(count: nat)
      requires Valid() && data.Length > 0 && count <= size
      modifies this`head, this`size
      ensures Valid() && Contents() == old(Contents())[count..]
      ensures head == (old(head) + count) % data.Length
    {
      WrapOnce(head + count, data.Length);
      head := (head + count) % data.Length;
      size := size - count;
    }

    /** The same, into a buffer of the caller's. */
    method ReadInto(out: array?<T>, maxSamples: nat) returns (count: nat)
      requires Valid() && (out != null ==> maxSamples <= out.Length) && out != data
      modifies this`head, this`size, out
      ensures Valid() && count == if out == null then 0 else Smaller(maxSamples, old(size))
      ensures Contents() == old(Contents())[count..]
      ensures out != null ==> out[..count] == old(Contents())[..count] && out[count..] == old(out[count..])
      ensures data.Length > 0 ==> head == (old(head) + count) % data.Length
    {
      if data.Length > 0 { WrapOnce(head, data.Length); }
      if out == null {
        return 0;
      }
      if maxSamples == 0 || size == 0 {
        return 0;
      }
      count := Smaller(maxSamples, size);
      ghost var held := Contents();
      for i := 0 to count
        modifies out
        invariant out[..i] == held[..i] && out[i..] == old(out[..])[i..]
        invariant Contents() == held
      {
        out[i] := data[Slot(head, i, data.Length)];
      }
      Advance(count);
    }

    method Clear()
      requires Valid()
      modifies this`head, this`size
      ensures Valid() && Contents() == [] && head == 0
    {
      head, size := 0, 0;
    }
  }

  // ---------------------------------------------------------------------------------------------
  // Frames

  datatype Config = Config(sampleRate: real, channels: int, bufferFrames: nat)

  /** How many samples the buffer holds: as many frames as configured, or two seconds of them. */
  function NormalizedCapacity(c: Config): nat {
    var channels := if c.channels > 1 then c.channels else 1;
    if c.bufferFrames > 0 then c.bufferFrames * channels
    else if c.sampleRate <= 0.0 then 0
    else (c.sampleRate * 2.0).Floor * channels
  }

  /** The capacity is a whole number of frames. */
  lemma CapacityWholeFrames(c: Config)
    requires c.channels > 0
    ensures NormalizedCapacity(c) % c.channels == 0
  {
    var frames :=
      if c.bufferFrames > 0 then c.bufferFrames else if c.sampleRate <= 0.0 then 0 else (c.sampleRate * 2.0).Floor;
    assert NormalizedCapacity(c) == c.channels * frames;
    ModIs(c.channels * frames, c.channels, frames, 0);
  }

  /** Without a configured size the buffer holds two seconds, short of less than one frame. */
  lemma CapacityTwoSeconds(c: Config) returns (frames: nat)
    requires c.channels > 0 && c.sampleRate > 0.0
    ensures NormalizedCapacity(c) == frames * c.channels
    ensures if c.bufferFrames > 0 then frames == c.bufferFrames
            else frames as real <= 2.0 * c.sampleRate < frames as real + 1.0
  {
    frames := if c.bufferFrames > 0 then c.bufferFrames else (c.sampleRate * 2.0).Floor;
  }

  lemma LapsWhole(capacity: nat, laps: nat, channels: nat)
    requires channels > 0 && capacity % channels == 0
    ensures capacity * laps >= 0 && capacity * laps % channels == 0
  {
    var c := capacity / channels;
    assert capacity == channels * c;
    assert capacity * laps == channels * (c * laps);
    ModIs(capacity * laps, channels, c * laps, 0);
  }

  lemma WholeFramesWrap(head: nat, more: nat, capacity: nat, channels: nat)
    requires channels > 0 && capacity > 0 && capacity % channels == 0 && head % channels == 0 && more % channels == 0
    ensures (head + more) % capacity % channels == 0
  {
    ModMultiple(head, more, channels);
    RestWhole(head + more, capacity, (head + more) / capacity, (head + more) % capacity, channels);
  }

  lemma RestWhole(x: nat, capacity: nat, laps: nat, rest: nat, channels: nat)
    requires channels > 0 && capacity % channels == 0 && x % channels == 0 && x == capacity * laps + rest
    ensures rest % channels == 0
  {
    LapsWhole(capacity, laps, channels);
    ModDifference(x, capacity * laps, channels);
  }

  lemma ProductWhole(frames: nat, channels: nat)
    requires channels > 0
    ensures frames * channels % channels == 0
  {
    ModIs(frames * channels, channels, frames, 0);
  }

  lemma FewerFrames(a: nat, b: nat, channels: nat)
    requires channels > 0
    ensures a * channels <= b * channels ==> a <= b
  {
    if a > b { assert (a - b) * channels > 0; }
  }

  class AudioInput<T(0)> {
    const channels: nat
    const ring: SampleRingBuffer<T>
    ghost const channel: T -> nat  // which channel a sample was recorded from

    /** Head, size and capacity are whole frames, and the contents are interleaved. */
    ghost predicate Aligned()
      reads this, ring, ring.data
    {
      && channels > 0 && ring.Valid()
      && ring.data.Length % channels == 0 && ring.head % channels == 0
      && Interleaved(ring.Contents(), channel, channels)
    }

    constructor (config: Config, ghost channel: T -> nat)
      requires config.sampleRate > 0.0 && config.channels > 0
      ensures Aligned() && fresh(ring) && fresh(ring.data) && channels == config.channels && this.channel == channel
      ensures ring.data.Length == NormalizedCapacity(config) && ring.Contents() == []
    {
      channels := config.channels;
      this.channel := channel;
      ring := new SampleRingBuffer(NormalizedCapacity(config));
      CapacityWholeFrames(config);
    }

    /** The stream callback: `input` holds frameCount frames, unless there is none. */
    method Callback(input: seq<T>, present: bool, frameCount: nat, contended: bool)
      requires Aligned() && |input| == frameCount * channels && Interleaved(input, channel, channels)
      modifies ring, ring.data
      ensures Aligned()
      ensures present ==> ring.Contents() == Pushed(ring.data.Length, old(ring.Contents()), input, contended)
      ensures present ==>
        ring.droppedSamples
          == old(ring.droppedSamples) + Dropped(ring.data.Length, old(ring.size), |input|, contended)
      ensures !present ==> ring.Contents() == old(ring.Contents()) && ring.droppedSamples == old(ring.droppedSamples)
    {
      if !present || frameCount == 0 {
        assert present ==> old(ring.Contents()) + input == old(ring.Contents());
        return;
      }
      ghost var capacity, size := ring.data.Length, ring.size;
      InterleavedPush(capacity, ring.Contents(), input, contended, channel, channels);
      if capacity > 0 {
        DroppedWholeFrames(capacity, size, |input|, channels);
        WholeFramesWrap(ring.head, Dropped(capacity, size, |input|, false), capacity, channels);
      }
      ring.Push(input, contended);
    }

    lemma DroppedWholeFrames(capacity: nat, held: nat, count: nat, channels: nat)
      requires channels > 0 && capacity % channels == 0 && held % channels == 0 && count % channels == 0
      ensures Dropped(capacity, held, count, false) % channels == 0
    {
      ModMultiple(held, count, channels);
      var total := held + count;
      assert total % channels == 0;
      if total > capacity {
        ModDifference(total, capacity, channels);
      } else {
        assert 0 % channels == 0;
      }
    }

    method AvailableFrames() returns (frames: nat)
      requires Aligned()
      ensures frames * channels == ring.size
    {
      frames := ring.size / channels;
    }

    /** Whole frames come out, every sample from its own channel. */
    method ReadFrames(maxFrames: nat) returns (out: seq<T>)
      requires Aligned()
      modifies ring
      ensures Aligned() && Interleaved(out, channel, channels) && |out| <= maxFrames * channels
      ensures old(ring.Contents()) == out + ring.Contents()
      ensures |out| == maxFrames * channels || ring.Contents() == []
    {
      ghost var held := ring.Contents();
      ProductWhole(maxFrames, channels);
      if maxFrames == 0 {
        return [];
      }
      ghost var n := Smaller(maxFrames * channels, |held|);
      InterleavedTail(held, n, channel, channels);
      if ring.data.Length > 0 { WholeFramesWrap(ring.head, n, ring.data.Length, channels); }
      out := ring.Read(maxFrames * channels);
    }

    /** The same into a buffer of the caller's; the result counts frames. */
    method ReadFramesInto(out: array?<T>, maxFrames: nat) returns (frames: nat)
      requires Aligned() && out != ring.data && (out != null ==> maxFrames * channels <= out.Length)
      modifies ring, out
      ensures Aligned() && frames <= maxFrames
      ensures out == null ==> frames == 0 && ring.Contents() == old(ring.Contents())
      ensures out != null ==>
        frames * channels <= out.Length && Interleaved(out[..frames * channels], channel, channels)
      ensures out != null ==> old(ring.Contents()) == out[..frames * channels] + ring.Contents()
      ensures out != null ==> out[frames * channels..] == old(out[..])[frames * channels..]
    {
      ghost var held := ring.Contents();
      ProductWhole(maxFrames, channels);
      if maxFrames == 0 || out == null {
        return 0;
      }
      ghost var n := Smaller(maxFrames * channels, |held|);
      InterleavedTail(held, n, channel, channels);
      if ring.data.Length > 0 { WholeFramesWrap(ring.head, n, ring.data.Length, channels); }
      var count := ring.ReadInto(out, maxFrames * channels);
      frames := WholeFrameCount(count, maxFrames);
    }

    /** count / channels, for a count of whole frames. */
    function WholeFrameCount(count: nat, maxFrames: nat): (frames: nat)
      requires channels > 0 && count % channels == 0 && count <= maxFrames * channels
      ensures frames * channels == count && frames <= maxFrames
    {
      FewerFrames(count / channels, maxFrames, channels);
      count / channels
    }

    method Clear()
      requires Aligned()
      modifies ring
      ensures Aligned() && ring.Contents() == [] && ring.droppedSamples == old(ring.droppedSamples)
    {
      ring.Clear();
    }
  }

  /** What PortAudio says about the device: there is none, nothing is known of it, or it has so many channels
      and its stream opens or not. */
  datatype Device = NoDevice | NoInfo | Known(maxChannels: int, opens: bool)

  /** Opens an input, unless the configuration or the device stands against it. */
  method Open<T(0)>(config: Config, device: Device, ghost channel: T -> nat) returns (input: AudioInput?<T>)
    ensures input != null <==>
      && config.sampleRate > 0.0 && 0 < config.channels
      && device.Known? && config.channels <= device.maxChannels && device.opens
    ensures input != null ==>
      && fresh(input) && input.Aligned() && input.channels == config.channels
      && input.ring.data.Length == NormalizedCapacity(config) && input.ring.Contents() == []
  {
    if config.sampleRate <= 0.0 || config.channels <= 0 {
      return null;
    }
    if !device.Known? || config.channels > device.maxChannels || !device.opens {
      return null;
    }
    input := new AudioInput(config, channel);
  }
}
