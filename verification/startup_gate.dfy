/** The startup gate of `AudioApp` in gpt4v-compliments.py: two setup
    completion callbacks (input-device update and call join) record success
    or an error, and `maybe_start` sets the start event that releases the
    audio sender thread. The `threading.Event` is modelled by the sticky
    `released` flag. */
module StartupGate {
  import opened Wrappers

  /** The `error` argument of a completion callback: `None`, or an error
      message from the call SDK. */
  type CallbackError = Option<string>

  /** Python truthiness of the error value: `None` and the empty string are
      false. An empty error message is therefore treated as success. */
  predicate Truthy(e: CallbackError)
  {
    e.Some? && e.value != ""
  }

  /** The `if error:` / `if self.__app_error:` tests: `None` and `""` are
      falsy, any other message is truthy. */
  lemma TruthyIsPythonTruthiness(e: CallbackError)
    ensures e == None ==> !Truthy(e)
    ensures e == Some("") ==> !Truthy(e)
    ensures e.Some? && e.value != "" ==> Truthy(e)
  {
  }

  datatype Gate = Gate(appError: CallbackError, inputsUpdated: bool, joined: bool, released: bool)

  /** The state set up in `AudioApp.__init__`: no error, nothing done, the
      start event clear. */
  function InitialGate(): (g: Gate)
    ensures !g.released && !Truthy(g.appError)
    ensures !g.inputsUpdated && !g.joined
  {
    Gate(None, false, false, false)
  }

  /** `maybe_start`: sets the start event when an error is recorded or both
      setup steps have succeeded; an event once set stays set. */
  function MaybeStart(g: Gate): (g': Gate)
    ensures g'.released <==> g.released || Truthy(g.appError) || (g.inputsUpdated && g.joined)
    ensures g'.appError == g.appError && g'.inputsUpdated == g.inputsUpdated && g'.joined == g.joined
  {
    if Truthy(g.appError) || (g.inputsUpdated && g.joined) then g.(released := true) else g
  }

  /** `on_inputs_updated`: a truthy error overwrites the recorded one, anything
      else marks the inputs updated; then `maybe_start`. */
  function OnInputsUpdated(g: Gate, error: CallbackError): (g': Gate)
    ensures Truthy(error) ==> g'.appError == error && g'.inputsUpdated == g.inputsUpdated
    ensures !Truthy(error) ==> g'.appError == g.appError && g'.inputsUpdated
    ensures g'.joined == g.joined
    ensures g'.released <==> g.released || Truthy(g'.appError) || (g'.inputsUpdated && g'.joined)
  {
    var g1 := if Truthy(error) then g.(appError := error) else g.(inputsUpdated := true);
    MaybeStart(g1)
  }

  /** `on_joined`: the same as `OnInputsUpdated`, for the join flag. */
  function OnJoined(g: Gate, error: CallbackError): (g': Gate)
    ensures Truthy(error) ==> g'.appError == error && g'.joined == g.joined
    ensures !Truthy(error) ==> g'.appError == g.appError && g'.joined
    ensures g'.inputsUpdated == g.inputsUpdated
    ensures g'.released <==> g.released || Truthy(g'.appError) || (g'.inputsUpdated && g'.joined)
  {
    var g1 := if Truthy(error) then g.(appError := error) else g.(joined := true);
    MaybeStart(g1)
  }

  /** One completion callback delivered by the call SDK. */
  datatype Callback = InputsUpdated(error: CallbackError) | Joined(error: CallbackError)

  function Deliver(g: Gate, cb: Callback): Gate
  {
    match cb
    case InputsUpdated(e) => OnInputsUpdated(g, e)
    case Joined(e) => OnJoined(g, e)
  }

  /** The gate after the callbacks `cbs`, in order. */
  function Replay(g: Gate, cbs: seq<Callback>): Gate
  {
    if cbs == [] then g else Deliver(Replay(g, cbs[..|cbs| - 1]), cbs[|cbs| - 1])
  }

  /** The recorded error is only ever absent or truthy. */
  ghost predicate WellFormed(g: Gate)
  {
    g.appError.None? || Truthy(g.appError)
  }

  /** The gate's invariant: released exactly when an error is recorded or
      both setup steps have succeeded. */
  ghost predicate Consistent(g: Gate)
  {
    WellFormed(g) && (g.released <==> Truthy(g.appError) || (g.inputsUpdated && g.joined))
  }

  /** Each callback preserves the invariant and never clears the event. */
  lemma DeliverPreserves(g: Gate, cb: Callback)
    requires Consistent(g)
    ensures Consistent(Deliver(g, cb))
    ensures g.released ==> Deliver(g, cb).released
  {
  }

  /** After any sequence of callbacks from the initial state the start event
      is set exactly when an error is recorded or both setup steps succeeded. */
  lemma {:induction false} ReplayIsConsistent(cbs: seq<Callback>)
    ensures Consistent(Replay(InitialGate(), cbs))
    ensures Replay(InitialGate(), cbs).released <==>
              Truthy(Replay(InitialGate(), cbs).appError)
              || (Replay(InitialGate(), cbs).inputsUpdated && Replay(InitialGate(), cbs).joined)
  {
    if cbs != [] {
      ReplayIsConsistent(cbs[..|cbs| - 1]);
      DeliverPreserves(Replay(InitialGate(), cbs[..|cbs| - 1]), cbs[|cbs| - 1]);
    }
  }

  /** Once set, the start event stays set whatever callbacks follow. */
  lemma {:induction false} ReleasedStaysReleased(g: Gate, cbs: seq<Callback>)
    requires g.released
    ensures Replay(g, cbs).released
  {
    if cbs != [] {
      ReleasedStaysReleased(g, cbs[..|cbs| - 1]);
    }
  }

  predicate IsErrorCallback(cb: Callback)
  {
    Truthy(cb.error)
  }

  predicate IsInputsSuccess(cb: Callback)
  {
    cb.InputsUpdated? && !Truthy(cb.error)
  }

  predicate IsJoinSuccess(cb: Callback)
  {
    cb.Joined? && !Truthy(cb.error)
  }

  /** The last truthy error among the callbacks, if any: the error a gate that
      started without one ends up recording. */
  function LastError(cbs: seq<Callback>): (e: CallbackError)
    ensures e.None? || Truthy(e)
  {
    if cbs == [] then None
    else if Truthy(cbs[|cbs| - 1].error) then cbs[|cbs| - 1].error
    else LastError(cbs[..|cbs| - 1])
  }

  lemma {:induction false} LastErrorFound(cbs: seq<Callback>)
    ensures Truthy(LastError(cbs)) <==> exists cb :: cb in cbs && IsErrorCallback(cb)
  {
    if cbs != [] {
      var init, last := cbs[..|cbs| - 1], cbs[|cbs| - 1];
      LastErrorFound(init);
      InLastOrInit(cbs);
      if IsErrorCallback(last) {
        assert last in cbs;
      }
    }
  }

  /** Membership in a non-empty trace: the last callback or an earlier one. */
  lemma InLastOrInit(cbs: seq<Callback>)
    requires cbs != []
    ensures forall cb :: cb in cbs <==> cb in cbs[..|cbs| - 1] || cb == cbs[|cbs| - 1]
  {
    assert cbs == cbs[..|cbs| - 1] + [cbs[|cbs| - 1]];
  }

  /** From the initial state the recorded error is the last truthy error
      delivered (last error wins; successes never clear it), and each flag is
      set exactly when a successful callback of its kind was delivered. */
  lemma {:induction false} ReplayRecords(cbs: seq<Callback>)
    ensures Replay(InitialGate(), cbs).appError == LastError(cbs)
    ensures Replay(InitialGate(), cbs).inputsUpdated <==> exists cb :: cb in cbs && IsInputsSuccess(cb)
    ensures Replay(InitialGate(), cbs).joined <==> exists cb :: cb in cbs && IsJoinSuccess(cb)
  {
    if cbs != [] {
      var init, last := cbs[..|cbs| - 1], cbs[|cbs| - 1];
      ReplayRecords(init);
      InLastOrInit(cbs);
      assert last in cbs;
    }
  }

  /** Whether the start event ends up set does not depend on the order in
      which the callbacks arrive. */
  lemma ReleaseIsOrderIndependent(a: seq<Callback>, b: seq<Callback>)
    requires multiset(a) == multiset(b)
    ensures Replay(InitialGate(), a).released == Replay(InitialGate(), b).released
  {
    ReplayIsConsistent(a);
    ReplayIsConsistent(b);
    ReplayRecords(a);
    ReplayRecords(b);
    LastErrorFound(a);
    LastErrorFound(b);
    assert forall cb :: cb in a <==> cb in multiset(a);
    assert forall cb :: cb in b <==> cb in multiset(b);
  }

  /** A recorded error survives any later successful callbacks. */
  lemma {:induction false} SuccessNeverClearsError(g: Gate, cbs: seq<Callback>)
    requires forall k :: 0 <= k < |cbs| ==> !Truthy(cbs[k].error)
    ensures Replay(g, cbs).appError == g.appError
  {
    if cbs != [] {
      SuccessNeverClearsError(g, cbs[..|cbs| - 1]);
    }
  }

  /** Both setup steps succeeding, in either order, releases the gate with
      no error. */
  lemma BothSucceedReleases(e1: CallbackError, e2: CallbackError)
    requires !Truthy(e1) && !Truthy(e2)
    ensures Replay(InitialGate(), [InputsUpdated(e1), Joined(e2)]).released
    ensures Replay(InitialGate(), [Joined(e2), InputsUpdated(e1)]).released
    ensures !Truthy(Replay(InitialGate(), [InputsUpdated(e1), Joined(e2)]).appError)
    ensures !Truthy(Replay(InitialGate(), [Joined(e2), InputsUpdated(e1)]).appError)
  {
    var ij, ji := [InputsUpdated(e1), Joined(e2)], [Joined(e2), InputsUpdated(e1)];
    assert ij[..1] == [InputsUpdated(e1)] && ij[..1][..0] == [];
    assert ji[..1] == [Joined(e2)] && ji[..1][..0] == [];
    assert Replay(InitialGate(), ij[..1]).appError == None;
    assert Replay(InitialGate(), ji[..1]).appError == None;
  }

  /** One failing setup step releases the gate at once, and a success that
      follows leaves the error in place. */
  lemma ErrorReleasesAtOnce(e: CallbackError, ok: CallbackError)
    requires Truthy(e) && !Truthy(ok)
    ensures Replay(InitialGate(), [Joined(e)]).released
    ensures Replay(InitialGate(), [Joined(e), InputsUpdated(ok)]).appError == e
  {
    assert [Joined(e), InputsUpdated(ok)][..1] == [Joined(e)];
  }
}
