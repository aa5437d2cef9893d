/** The audio sender thread of `AudioApp` (`send_raw_audio` in
    gpt4v-compliments.py) and the whole application as a sequence of atomic
    events: setup callbacks, speech fetches appending to the buffer, sender
    loop iterations and `leave`. Sleeps, threads and the SDK calls are not
    modelled; `write_frames` appends the frame to `sink`. */
module Sender {
  import opened Wrappers
  import opened AudioBuffers
  import opened StartupGate

  /** One pass of the loop body: take what `get_data` returns and, unless it
      is `None`, write it to the microphone. No byte is lost, duplicated or
      reordered between the buffer and the sink, and earlier frames stay as
      they were. */
  function SendStep(buffer: AudioBuffer, sink: seq<seq<byte>>): (r: (AudioBuffer, seq<seq<byte>>))
    ensures Flatten(r.1) + r.0.contents == Flatten(sink) + buffer.contents
    ensures |sink| <= |r.1| <= |sink| + 1 && r.1[..|sink|] == sink
    ensures |r.1| == |sink| <==> |buffer.contents| < buffer.bytesPer100ms && !buffer.finished
    ensures |r.1| == |sink| ==> r.0 == buffer
    ensures |r.1| == |sink| + 1 ==> r.1[|sink|] == GetData(buffer).0.value && r.0 == GetData(buffer).1
    ensures r.0.finished == buffer.finished && r.0.bytesPer100ms == buffer.bytesPer100ms
  {
    var (chunk, rest) := GetData(buffer);
    match chunk
    case None => (buffer, sink)
    case Some(frame) =>
      var sink' := sink + [frame];
      assert sink'[..|sink'| - 1] == sink;
      ConcatAssoc(Flatten(sink), frame, rest.contents);
      (rest, sink')
  }

  /** The loop without an error, as a fold over the arrival schedule: each
      pass first appends that pass's arrival, then runs the loop body. */
  function SendPasses(buffer: AudioBuffer, arrivals: seq<seq<byte>>): (r: (AudioBuffer, seq<seq<byte>>))
  {
    if arrivals == [] then (buffer, [])
    else
      var r0 := SendPasses(buffer, arrivals[..|arrivals| - 1]);
      SendStep(AddData(r0.0, arrivals[|arrivals| - 1]), r0.1)
  }

  /** The fold conserves bytes: the frames written, then what is left, are
      the old contents followed by every arrival. */
  lemma {:induction false} SendPassesConserves(buffer: AudioBuffer, arrivals: seq<seq<byte>>)
    ensures Flatten(SendPasses(buffer, arrivals).1) + SendPasses(buffer, arrivals).0.contents
            == buffer.contents + Flatten(arrivals)
    ensures SendPasses(buffer, arrivals).0.finished == buffer.finished
    ensures SendPasses(buffer, arrivals).0.bytesPer100ms == buffer.bytesPer100ms
  {
    if arrivals != [] {
      var init, arrival := arrivals[..|arrivals| - 1], arrivals[|arrivals| - 1];
      SendPassesConserves(buffer, init);
      var r0 := SendPasses(buffer, init);
      ConcatAssoc(Flatten(r0.1), r0.0.contents, arrival);
      ConcatAssoc(buffer.contents, Flatten(init), arrival);
    }
  }

  /** Frame sizes and counts of the fold: no frame is longer than one 100 ms
      frame, and all are full while not finished; when finished, or when every
      arrival alone fills a frame, every pass writes one frame. */
  lemma {:induction false} SendPassesFrames(buffer: AudioBuffer, arrivals: seq<seq<byte>>)
    ensures forall k :: 0 <= k < |SendPasses(buffer, arrivals).1| ==>
              |SendPasses(buffer, arrivals).1[k]| <= buffer.bytesPer100ms
    ensures !buffer.finished ==> forall k :: 0 <= k < |SendPasses(buffer, arrivals).1| ==>
              |SendPasses(buffer, arrivals).1[k]| == buffer.bytesPer100ms
    ensures buffer.finished ==> |SendPasses(buffer, arrivals).1| == |arrivals|
    ensures (forall i :: 0 <= i < |arrivals| ==> |arrivals[i]| >= buffer.bytesPer100ms) ==>
              |SendPasses(buffer, arrivals).1| == |arrivals|
  {
    if arrivals != [] {
      var init, arrival := arrivals[..|arrivals| - 1], arrivals[|arrivals| - 1];
      SendPassesFrames(buffer, init);
      SendPassesConserves(buffer, init);
      var r0 := SendPasses(buffer, init);
      var r := SendStep(AddData(r0.0, arrival), r0.1);
      assert r == SendPasses(buffer, arrivals);
      forall k | 0 <= k < |r.1|
        ensures |r.1[k]| <= buffer.bytesPer100ms
        ensures !buffer.finished ==> |r.1[k]| == buffer.bytesPer100ms
      {
        if k < |r0.1| {
          assert r.1[k] == r.1[..|r0.1|][k];
        }
      }
      if forall i :: 0 <= i < |arrivals| ==> |arrivals[i]| >= buffer.bytesPer100ms {
        assert forall i :: 0 <= i < |init| ==> init[i] == arrivals[i];
      }
    }
  }

  /** The loop of `send_raw_audio` once the start event is set, for a fixed
      schedule: before iteration `i` the producer appended `arrivals[i]`
      (possibly nothing), and `leave` set the quit flag after the last one.
      With an error recorded the thread returns before the loop and writes
      nothing. Without one, every pass writes what `get_data` returns, so a
      pass whose arrival alone fills a frame always writes one. */
  method SendRawAudio(gate: Gate, buffer: AudioBuffer, arrivals: seq<seq<byte>>)
    returns (final: AudioBuffer, sink: seq<seq<byte>>)
    requires gate.released
    ensures !Truthy(gate.appError) ==> (final, sink) == SendPasses(buffer, arrivals)
    ensures (!Truthy(gate.appError) && forall i :: 0 <= i < |arrivals| ==> |arrivals[i]| >= buffer.bytesPer100ms) ==>
              |sink| == |arrivals|
    ensures Flatten(sink) + final.contents == buffer.contents + Flatten(arrivals)
    ensures final.finished == buffer.finished && final.bytesPer100ms == buffer.bytesPer100ms
    ensures forall k :: 0 <= k < |sink| ==> |sink[k]| <= buffer.bytesPer100ms
    ensures !buffer.finished ==> forall k :: 0 <= k < |sink| ==> |sink[k]| == buffer.bytesPer100ms
    ensures Truthy(gate.appError) ==> sink == []
    ensures !Truthy(gate.appError) && buffer.finished ==> |sink| == |arrivals|
  {
    final, sink := buffer, [];
    var sending := !Truthy(gate.appError);
    var i := 0;
    while i < |arrivals|
      invariant i <= |arrivals|
      invariant sending ==> (final, sink) == SendPasses(buffer, arrivals[..i])
      invariant !sending ==> sink == [] && final == buffer.(contents := buffer.contents + Flatten(arrivals[..i]))
    {
      assert arrivals[..i + 1][..i] == arrivals[..i];
      final := AddData(final, arrivals[i]);
      if sending {
        var r := SendStep(final, sink);
        final, sink := r.0, r.1;
      }
      i := i + 1;
    }
    assert arrivals[..i] == arrivals;
    if sending {
      SendPassesConserves(buffer, arrivals);
      SendPassesFrames(buffer, arrivals);
    } else {
      assert [] + final.contents == buffer.contents + Flatten(arrivals);
    }
  }

  /** Where the sender thread is: blocked on the start event, inside the
      loop, returned because of a setup error, or left the loop on quit. */
  datatype Phase = Waiting | Sending | Aborted | Quit

  datatype App = App(gate: Gate, buffer: AudioBuffer, phase: Phase, quit: bool, sink: seq<seq<byte>>)

  /** One atomic event of a run. */
  datatype Event =
    | SetupDone(cb: Callback)          // a setup completion callback fires
    | Fetched(content: seq<byte>)      // `fetch_audio` hands its response to `add_data`
    | Tick                             // the sender thread takes one step
    | Leave                            // `leave` sets the quit flag

  /** The application right after `run` created the buffer. */
  function InitialApp(): (a: App)
    ensures a.phase == Waiting && !a.quit && a.sink == []
    ensures a.buffer == NewAudioBuffer() && a.gate == InitialGate()
  {
    App(InitialGate(), NewAudioBuffer(), Waiting, false, [])
  }

  /** One sender step: leave `wait` once the event is set (then stop at once
      on a recorded error), check the quit flag before every iteration and
      leave the loop when it is set, whatever is still buffered; otherwise run
      one pass of the loop body. */
  function SenderTick(a: App): (a': App)
    ensures a'.gate == a.gate && a'.quit == a.quit
    ensures a.phase in {Waiting, Aborted, Quit} ==> a'.sink == a.sink && a'.buffer == a.buffer
    ensures a.phase == Waiting && !a.gate.released ==> a'.phase == Waiting
    ensures a.phase == Waiting && a.gate.released ==>
              a'.phase == (if Truthy(a.gate.appError) then Aborted else Sending)
    ensures a.phase == Sending && a.quit ==> a'.phase == Quit && a'.sink == a.sink && a'.buffer == a.buffer
    ensures a.phase == Sending && !a.quit ==> a'.phase == Sending && (a'.buffer, a'.sink) == SendStep(a.buffer, a.sink)
    ensures a.phase in {Aborted, Quit} ==> a'.phase == a.phase
  {
    match a.phase
    case Waiting =>
      if !a.gate.released then a
      else if Truthy(a.gate.appError) then a.(phase := Aborted)
      else a.(phase := Sending)
    case Sending =>
      if a.quit then a.(phase := Quit)
      else
        var r := SendStep(a.buffer, a.sink);
        a.(buffer := r.0, sink := r.1)
    case Aborted => a
    case Quit => a
  }

  /** One event: a setup callback changes only the gate, a fetch only appends
      its bytes to the buffer, `leave` only sets the quit flag, and a sender
      step is `SenderTick`. */
  function Step(a: App, e: Event): (a': App)
    ensures e.SetupDone? ==> a' == a.(gate := Deliver(a.gate, e.cb))
    ensures e.SetupDone? ==>
              (a'.gate.released <==> a.gate.released || Truthy(a'.gate.appError) || (a'.gate.inputsUpdated && a'.gate.joined))
    ensures e.Fetched? ==> a'.buffer.contents == a.buffer.contents + e.content
    ensures e.Fetched? ==> a' == a.(buffer := a'.buffer) && a'.buffer.finished == a.buffer.finished
    ensures e.Fetched? ==> a'.buffer.bytesPer100ms == a.buffer.bytesPer100ms
    ensures e.Leave? ==> a'.quit && a' == a.(quit := true)
    ensures e.Tick? ==> a'.gate == a.gate && a'.quit == a.quit
  {
    match e
    case SetupDone(cb) => a.(gate := Deliver(a.gate, cb))
    case Fetched(content) => a.(buffer := AddData(a.buffer, content))
    case Tick => SenderTick(a)
    case Leave => a.(quit := true)
  }

  function Run(a: App, es: seq<Event>): App
  {
    if es == [] then a else Step(Run(a, es[..|es| - 1]), es[|es| - 1])
  }

  /** Everything the speech fetches handed to the buffer, in order. */
  function FetchedBytes(es: seq<Event>): seq<byte>
  {
    if es == [] then []
    else
      var e := es[|es| - 1];
      FetchedBytes(es[..|es| - 1]) + (if e.Fetched? then e.content else [])
  }

  /** What holds of every reachable state, given the bytes fetched so far. */
  ghost predicate AppInvariant(a: App, fetched: seq<byte>)
  {
    && Consistent(a.gate)
    && Flatten(a.sink) + a.buffer.contents == fetched
    && a.buffer.bytesPer100ms == BytesPer100ms() && !a.buffer.finished
    && (forall k :: 0 <= k < |a.sink| ==> |a.sink[k]| == BytesPer100ms())
    && (a.phase in {Waiting, Aborted} ==> a.sink == [])
    && (a.phase != Waiting ==> a.gate.released)
    && (a.phase == Aborted ==> Truthy(a.gate.appError))
  }

  lemma StepPreserves(a: App, fetched: seq<byte>, e: Event)
    requires AppInvariant(a, fetched)
    ensures AppInvariant(Step(a, e), fetched + (if e.Fetched? then e.content else []))
  {
    match e
    case SetupDone(cb) =>
      DeliverPreserves(a.gate, cb);
    case Fetched(content) =>
      ConcatAssoc(Flatten(a.sink), a.buffer.contents, content);
    case Tick =>
      assert fetched + [] == fetched;
    case Leave =>
      assert fetched + [] == fetched;
  }

  /** Over any interleaving of callbacks, fetches, sender steps and `leave`:
      the frames written followed by the bytes still buffered are exactly the
      fetched bytes in order; every frame is one full 100 ms frame (nothing
      ever sets `finished`); the sender leaves `wait` only once the start
      event is set; and a sender that saw a recorded error has written no
      audio. */
  lemma {:induction false} RunInvariant(es: seq<Event>)
    ensures AppInvariant(Run(InitialApp(), es), FetchedBytes(es))
    ensures Flatten(Run(InitialApp(), es).sink) <= FetchedBytes(es)
  {
    if es != [] {
      var init := es[..|es| - 1];
      RunInvariant(init);
      StepPreserves(Run(InitialApp(), init), FetchedBytes(init), es[|es| - 1]);
    } else {
      assert Flatten([]) + [] == [];
    }
    var a := Run(InitialApp(), es);
    assert FetchedBytes(es)[..|Flatten(a.sink)|] == Flatten(a.sink);
  }

  /** A sender that returned on a setup error never writes audio, whatever
      happens afterwards. */
  lemma {:induction false} AbortedStaysSilent(a: App, es: seq<Event>)
    requires a.phase == Aborted
    ensures Run(a, es).phase == Aborted
    ensures Run(a, es).sink == a.sink
  {
    if es != [] {
      AbortedStaysSilent(a, es[..|es| - 1]);
    }
  }

  /** No loop pass that starts after `leave` has set the quit flag writes a
      frame: the loop exits at its next check and whatever is still buffered
      stays there. A pass is one atomic step here; in the program a pass
      already past the check when quit is set may still write its frame. */
  lemma {:induction false} NoFramesAfterQuit(a: App, es: seq<Event>)
    requires a.quit
    ensures Run(a, es).quit
    ensures Run(a, es).sink == a.sink
  {
    if es != [] {
      NoFramesAfterQuit(a, es[..|es| - 1]);
    }
  }

  /** Running two traces back to back is running their concatenation. */
  lemma {:induction false} RunConcat(a: App, es1: seq<Event>, es2: seq<Event>)
    ensures Run(a, es1 + es2) == Run(Run(a, es1), es2)
    decreases |es2|
  {
    if es2 == [] {
      assert es1 + es2 == es1;
    } else {
      var es := es1 + es2;
      assert es[..|es| - 1] == es1 + es2[..|es2| - 1];
      assert es[|es| - 1] == es2[|es2| - 1];
      RunConcat(a, es1, es2[..|es2| - 1]);
    }
  }

  /** If the sender saw a recorded error when the start event released it,
      no audio is ever written, whatever the rest of the run does. */
  lemma SilentAfterAbort(es1: seq<Event>, es2: seq<Event>)
    requires Run(InitialApp(), es1).phase == Aborted
    ensures Run(InitialApp(), es1 + es2).sink == []
  {
    RunInvariant(es1);
    RunConcat(InitialApp(), es1, es2);
    AbortedStaysSilent(Run(InitialApp(), es1), es2);
  }
}
