/** The FIFO audio buffer between the speech fetch (producer) and the
    virtual-microphone writer (consumer): class `AudioBuffer` of
    gpt4v-compliments.py. Each call is one atomic step; the lock that makes it
    atomic is not modelled. */
module AudioBuffers {
  import opened Wrappers

  newtype byte = x: int | 0 <= x < 0x100

  /** Output format of the virtual microphone. */
  const SampleRate: nat := 24000
  const NumChannels: nat := 1
  /** Linear PCM, 16 bits per sample. */
  const BytesPerSample: nat := 2

  /** Bytes in 100 ms of audio. The source multiplies by the float `0.1` and
      truncates; for the constants above that is exactly the integer tenth. */
  function BytesPer100ms(): (n: nat)
    ensures n == 4800
    ensures n * 10 == SampleRate * BytesPerSample * NumChannels
  {
    SampleRate * BytesPerSample * NumChannels / 10
  }

  function Min(a: int, b: int): int {
    if a < b then a else b
  }

  /** The buffer's state. The Python `BytesIO` is always positioned at its end
      between calls, so `tell()` is the number of buffered bytes, `|contents|`.
      No code path sets `finished` to true; it is kept as a field so that the
      branch of `GetData` that depends on it is specified. */
  datatype AudioBuffer = AudioBuffer(contents: seq<byte>, finished: bool, bytesPer100ms: nat)

  /** `AudioBuffer.__init__`: empty, not finished, one frame is 100 ms. */
  function NewAudioBuffer(): (b: AudioBuffer)
    ensures b.contents == [] && !b.finished
    ensures b.bytesPer100ms == 4800
  {
    AudioBuffer([], false, BytesPer100ms())
  }

  /** `add_data`: the chunk, possibly empty, goes at the tail. */
  function AddData(b: AudioBuffer, data: seq<byte>): (b': AudioBuffer)
    ensures |b'.contents| == |b.contents| + |data|
    ensures b'.contents[..|b.contents|] == b.contents
    ensures b'.contents[|b.contents|..] == data
    ensures b'.finished == b.finished && b'.bytesPer100ms == b.bytesPer100ms
  {
    b.(contents := b.contents + data)
  }

  /** `get_data`: refuses (`None`) while less than one frame is buffered and
      the stream is not finished; otherwise removes and returns the first
      `min(available, bytesPer100ms)` bytes. */
  function GetData(b: AudioBuffer): (r: (Option<seq<byte>>, AudioBuffer))
    ensures r.0.None? <==> |b.contents| < b.bytesPer100ms && !b.finished
    ensures r.0.None? ==> r.1 == b
    ensures r.0.Some? ==> |r.0.value| == Min(|b.contents|, b.bytesPer100ms)
    ensures r.0.Some? ==> r.0.value + r.1.contents == b.contents
    ensures r.0.Some? && |r.0.value| < b.bytesPer100ms ==> b.finished && r.1.contents == []
    ensures r.1.finished == b.finished && r.1.bytesPer100ms == b.bytesPer100ms
  {
    var available := |b.contents|;
    if available < b.bytesPer100ms && !b.finished then
      (None, b)
    else
      var size := Min(available, b.bytesPer100ms);
      (Some(b.contents[..size]), b.(contents := b.contents[size..]))
  }

  /** Once finished and drained, every further `get_data` returns an empty
      chunk (not `None`) and the buffer stays empty. */
  lemma FinishedAndEmptyYieldsEmptyChunk(b: AudioBuffer)
    requires b.finished && b.contents == []
    ensures GetData(b).0 == Some([])
    ensures GetData(b).1 == b
  {
  }

  /** A fresh buffer given 6000 bytes hands out the first 4800 and then
      refuses while the remaining 1200 are less than a frame. */
  lemma PartialFrameWaits(data: seq<byte>)
    requires |data| == 6000
    ensures GetData(AddData(NewAudioBuffer(), data)).0 == Some(data[..4800])
    ensures GetData(GetData(AddData(NewAudioBuffer(), data)).1).0 == None
    ensures GetData(GetData(AddData(NewAudioBuffer(), data)).1).1.contents == data[4800..]
  {
    assert [] + data == data;
  }

  /** Appending at the tail does not disturb a frame already available at the
      head: `get_data` then `add_data` equals `add_data` then `get_data`. */
  lemma AddDataCommutesWithReadyGet(b: AudioBuffer, data: seq<byte>)
    requires |b.contents| >= b.bytesPer100ms
    ensures GetData(AddData(b, data)).0 == GetData(b).0
    ensures GetData(AddData(b, data)).1 == AddData(GetData(b).1, data)
  {
    var n := b.bytesPer100ms;
    assert (b.contents + data)[..n] == b.contents[..n];
    assert (b.contents + data)[n..] == b.contents[n..] + data;
  }

  /** One call on the buffer, as seen by the two threads that share it. */
  datatype BufferOp = Add(data: seq<byte>) | Get

  /** Concatenation of a list of chunks, in order. */
  function Flatten(chunks: seq<seq<byte>>): seq<byte>
  {
    if chunks == [] then [] else Flatten(chunks[..|chunks| - 1]) + chunks[|chunks| - 1]
  }

  lemma {:induction false} FlattenConcat(xs: seq<seq<byte>>, ys: seq<seq<byte>>)
    ensures Flatten(xs + ys) == Flatten(xs) + Flatten(ys)
    decreases |ys|
  {
    if ys == [] {
      assert xs + ys == xs;
    } else {
      var ys' := ys[..|ys| - 1];
      assert (xs + ys)[..|xs + ys| - 1] == xs + ys';
      FlattenConcat(xs, ys');
    }
  }

  /** The bytes one call hands to `add_data`. */
  function AddedBy(op: BufferOp): seq<byte>
  {
    if op.Add? then op.data else []
  }

  /** Everything the producer handed to `add_data` in a trace, in order. */
  function Added(ops: seq<BufferOp>): seq<byte>
  {
    if ops == [] then [] else Added(ops[..|ops| - 1]) + AddedBy(ops[|ops| - 1])
  }

  /** One call on the buffer; returns the new buffer and the chunks handed
      out by the call (none, or the one chunk `get_data` returned). */
  function ApplyOp(b: AudioBuffer, op: BufferOp): (r: (AudioBuffer, seq<seq<byte>>))
    ensures Flatten(r.1) + r.0.contents == b.contents + AddedBy(op)
    ensures forall k :: 0 <= k < |r.1| ==> |r.1[k]| <= b.bytesPer100ms
    ensures r.0.finished == b.finished && r.0.bytesPer100ms == b.bytesPer100ms
  {
    match op
    case Add(data) => (AddData(b, data), [])
    case Get =>
      var (chunk, b1) := GetData(b);
      if chunk.Some? then
        assert [chunk.value][..0] == [];
        (b1, [chunk.value])
      else (b1, [])
  }

  /** Runs a trace from `b`; returns the final buffer and the non-`None`
      chunks `get_data` handed out, in order. */
  function Apply(b: AudioBuffer, ops: seq<BufferOp>): (r: (AudioBuffer, seq<seq<byte>>))
  {
    if ops == [] then (b, [])
    else
      var (b0, out0) := Apply(b, ops[..|ops| - 1]);
      var (b1, out1) := ApplyOp(b0, ops[|ops| - 1]);
      (b1, out0 + out1)
  }

  /** FIFO: over any interleaving of `add_data` and `get_data`, the bytes handed
      out followed by the bytes still buffered are exactly the bytes that were
      there at the start followed by everything added, in order. */
  lemma {:induction false} ApplyIsFifo(b: AudioBuffer, ops: seq<BufferOp>)
    ensures Flatten(Apply(b, ops).1) + Apply(b, ops).0.contents == b.contents + Added(ops)
  {
    if ops != [] {
      var init, op := ops[..|ops| - 1], ops[|ops| - 1];
      ApplyIsFifo(b, init);
      var r0 := Apply(b, init);
      var r1 := ApplyOp(r0.0, op);
      assert Apply(b, ops) == (r1.0, r0.1 + r1.1);
      FlattenConcat(r0.1, r1.1);
      var f0, f1, rest := Flatten(r0.1), Flatten(r1.1), r1.0.contents;
      ConcatAssoc(f0, f1, rest);
      ConcatAssoc(f0, r0.0.contents, AddedBy(op));
      ConcatAssoc(b.contents, Added(init), AddedBy(op));
    }
  }

  lemma ConcatAssoc(x: seq<byte>, y: seq<byte>, z: seq<byte>)
    ensures (x + y) + z == x + (y + z)
  {
  }

  /** Over any trace no chunk handed out is longer than one frame, and the
      frame size and `finished` never change. */
  lemma {:induction false} ApplyKeepsFrames(b: AudioBuffer, ops: seq<BufferOp>)
    ensures forall k :: 0 <= k < |Apply(b, ops).1| ==> |Apply(b, ops).1[k]| <= b.bytesPer100ms
    ensures Apply(b, ops).0.finished == b.finished
    ensures Apply(b, ops).0.bytesPer100ms == b.bytesPer100ms
  {
    if ops != [] {
      var init, op := ops[..|ops| - 1], ops[|ops| - 1];
      ApplyKeepsFrames(b, init);
      var r0 := Apply(b, init);
      var r1 := ApplyOp(r0.0, op);
      assert Apply(b, ops) == (r1.0, r0.1 + r1.1);
      forall k | 0 <= k < |r0.1 + r1.1|
        ensures |(r0.1 + r1.1)[k]| <= b.bytesPer100ms
      {
        if k >= |r0.1| {
          assert (r0.1 + r1.1)[k] == r1.1[k - |r0.1|];
        }
      }
    }
  }

  /** Starting from a fresh buffer, what has been handed out is a prefix of
      everything that was added. */
  lemma HandedOutIsPrefixOfAdded(ops: seq<BufferOp>)
    ensures Flatten(Apply(NewAudioBuffer(), ops).1) <= Added(ops)
  {
    ApplyIsFifo(NewAudioBuffer(), ops);
    var out := Flatten(Apply(NewAudioBuffer(), ops).1);
    var rest := Apply(NewAudioBuffer(), ops).0.contents;
    assert Added(ops) == out + rest;
    assert Added(ops)[..|out|] == out;
  }
}
