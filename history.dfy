/**
 * CommandHistory and the wrapper the registrar installs around every
 * declared command method. The wrapper records its command, switches
 * recording off, runs the original method, and switches recording on
 * again, whatever it was on entry.
 *
 * What a method body does is given as a tree of invocations: each
 * invocation names the method called and lists, in order, the invocations
 * its body makes. A method the registrar wrapped is one whose name has a
 * command in the `wrapped` map; any other method runs its body with no
 * recording of its own.
 */
module History {
  import Commands

  /** The module-level state of CommandHistory. */
  class CommandHistory {
    var max: int
    var recording: bool
    var history: seq<Commands.Command>

    /** The state after the module is loaded and `clear` has run. */
    constructor ()
      ensures max == 50 && recording && history == []
    {
      max, recording, history := 50, true, [];
    }

    /** `record`: append while recording; `max` never shortens the history. */
    method Record(com: Commands.Command)
      modifies this
      ensures history == if old(recording) then old(history) + [com] else old(history)
      ensures recording == old(recording) && max == old(max)
    {
      if recording {
        history := history + [com];
      }
    }

    /** `clear`: empty the history; the recording flag is left as it was. */
    method Clear()
      modifies this
      ensures history == [] && recording == old(recording) && max == old(max)
    {
      history := [];
    }

    /** `recording = on` */
    method SetRecording(on: bool)
      modifies this
      ensures recording == on && history == old(history) && max == old(max)
    {
      recording := on;
    }
  }

  /** What running some invocations did: the entries added to the history, and the recording flag afterwards. */
  datatype Effect = Effect(recorded: seq<Commands.Command>, recording: bool)

  /**
   * One invocation of a method: the invocations its body makes, in order,
   * and the value the method's own body comes to.
   */
  datatype Call = Call(methodName: string, nested: seq<Call>, result: Commands.Value)

  /**
   * What an invocation returns. The wrapper's last statement is
   * `CommandHistory.recording = true`, and a Ruby assignment comes to its
   * right-hand side, so a wrapped method returns `true` whatever its own
   * body came to; any other method returns its body's value.
   */
  function Result(wrapped: map<string, Commands.Command>, c: Call): (v: Commands.Value)
    ensures c.methodName in wrapped ==> v == Commands.True
    ensures c.methodName !in wrapped ==> v == c.result
  {
    if c.methodName in wrapped then Commands.True else c.result
  }

  /**
   * The entries an invocation adds to the history and the recording flag
   * after it, entered with the flag `recording`.
   */
  function Run(wrapped: map<string, Commands.Command>, c: Call, recording: bool): (r: Effect)
    ensures c.methodName in wrapped ==> r.recording
    decreases c
  {
    if c.methodName in wrapped then
      Effect((if recording then [wrapped[c.methodName]] else []) + RunAll(wrapped, c.nested, false).recorded, true)
    else
      RunAll(wrapped, c.nested, recording)
  }

  /** The invocations `cs` made one after the other, starting with the flag `recording`. */
  function RunAll(wrapped: map<string, Commands.Command>, cs: seq<Call>, recording: bool): Effect
    decreases cs
  {
    if cs == [] then Effect([], recording)
    else
      var first := Run(wrapped, cs[0], recording);
      var rest := RunAll(wrapped, cs[1..], first.recording);
      Effect(first.recorded + rest.recorded, rest.recording)
  }

  /** Running one more invocation after `cs` continues from the flag `cs` left. */
  lemma {:induction false} RunAllSnoc(wrapped: map<string, Commands.Command>, cs: seq<Call>, c: Call, recording: bool)
    ensures var before := RunAll(wrapped, cs, recording);
      var last := Run(wrapped, c, before.recording);
      RunAll(wrapped, cs + [c], recording) == Effect(before.recorded + last.recorded, last.recording)
    decreases |cs|
  {
    if cs == [] {
      var one, none: seq<Call> := [c], [];
      assert cs + [c] == one && one[0] == c && one[1..] == none;
      var last := Run(wrapped, c, recording);
      assert RunAll(wrapped, none, last.recording) == Effect([], last.recording);
      var r := RunAll(wrapped, one, recording);
      assert r.recorded == last.recorded + [] && r.recording == last.recording;
      assert r == Effect([] + last.recorded, last.recording);
    } else {
      var first := Run(wrapped, cs[0], recording);
      assert (cs + [c])[0] == cs[0];
      assert (cs + [c])[1..] == cs[1..] + [c];
      RunAllSnoc(wrapped, cs[1..], c, first.recording);
      var rest := RunAll(wrapped, cs[1..], first.recording);
      var last := Run(wrapped, c, rest.recording);
      assert RunAll(wrapped, cs + [c], recording) == Effect(first.recorded + (rest.recorded + last.recorded), last.recording);
      assert first.recorded + (rest.recorded + last.recorded) == (first.recorded + rest.recorded) + last.recorded;
    }
  }

  /**
   * Running an invocation on the history object: a wrapped method records
   * its command, turns recording off, runs its body and turns recording on.
   */
  method Invoke(h: CommandHistory, wrapped: map<string, Commands.Command>, c: Call)
    returns (v: Commands.Value)
    modifies h
    ensures v == Result(wrapped, c)
    ensures h.history == old(h.history) + Run(wrapped, c, old(h.recording)).recorded
    ensures h.recording == Run(wrapped, c, old(h.recording)).recording
    ensures h.max == old(h.max)
    decreases c, 1
  {
    if c.methodName in wrapped {
      h.Record(wrapped[c.methodName]);
      h.SetRecording(false);
      ghost var start := h.history;
      InvokeAll(h, wrapped, c.nested);
      assert h.history == start + RunAll(wrapped, c.nested, false).recorded;
      h.SetRecording(true);
      v := Commands.True;
    } else {
      InvokeAll(h, wrapped, c.nested);
      v := c.result;
    }
  }

  /** The body of a method: its invocations run one after the other. */
  method InvokeAll(h: CommandHistory, wrapped: map<string, Commands.Command>, cs: seq<Call>)
    modifies h
    ensures h.history == old(h.history) + RunAll(wrapped, cs, old(h.recording)).recorded
    ensures h.recording == RunAll(wrapped, cs, old(h.recording)).recording
    ensures h.max == old(h.max)
    decreases cs, 0
  {
    ghost var start := h.history;
    ghost var flag := h.recording;
    for i := 0 to |cs|
      invariant h.history == start + RunAll(wrapped, cs[..i], flag).recorded
      invariant h.recording == RunAll(wrapped, cs[..i], flag).recording
      invariant h.max == old(h.max)
    {
      ghost var before := RunAll(wrapped, cs[..i], flag);
      RunAllSnoc(wrapped, cs[..i], cs[i], flag);
      assert cs[..i + 1] == cs[..i] + [cs[i]];
      var _ := Invoke(h, wrapped, cs[i]);
      assert h.history == start + (before.recorded + Run(wrapped, cs[i], before.recording).recorded);
    }
    assert cs[..|cs|] == cs;
  }

  /** A wrapped invocation entered while recording records its own command first. */
  lemma RecordsOwnCommandFirst(wrapped: map<string, Commands.Command>, c: Call)
    requires c.methodName in wrapped
    ensures var entries := Run(wrapped, c, true).recorded;
      |entries| >= 1 && entries[0] == wrapped[c.methodName]
  {
  }

  /** Some invocation in the tree of `c`, `c` included, is of a wrapped method. */
  ghost predicate CallsWrapped(wrapped: map<string, Commands.Command>, c: Call)
    decreases c
  {
    c.methodName in wrapped || exists i :: 0 <= i < |c.nested| && CallsWrapped(wrapped, c.nested[i])
  }

  /**
   * Nothing turns recording off for good: after an invocation the flag is
   * on exactly when it was on before or a wrapped method ran somewhere in it.
   */
  lemma {:induction false} FlagAfterRun(wrapped: map<string, Commands.Command>, c: Call, recording: bool)
    ensures Run(wrapped, c, recording).recording == (recording || CallsWrapped(wrapped, c))
    decreases c
  {
    FlagAfterRunAll(wrapped, c.nested, if c.methodName in wrapped then false else recording);
  }

  lemma {:induction false} FlagAfterRunAll(wrapped: map<string, Commands.Command>, cs: seq<Call>, recording: bool)
    ensures RunAll(wrapped, cs, recording).recording
      == (recording || exists i :: 0 <= i < |cs| && CallsWrapped(wrapped, cs[i]))
    decreases cs
  {
    if cs != [] {
      FlagAfterRun(wrapped, cs[0], recording);
      var flag := Run(wrapped, cs[0], recording).recording;
      FlagAfterRunAll(wrapped, cs[1..], flag);
      assert forall i :: 1 <= i < |cs| ==> cs[i] == cs[1..][i - 1];
      assert forall i :: 0 <= i < |cs| - 1 ==> cs[1..][i] == cs[i + 1];
    }
  }

  /** An invocation in which no wrapped method runs, entered while recording is off, adds nothing and leaves it off. */
  lemma {:induction false} QuietWhileOff(wrapped: map<string, Commands.Command>, c: Call)
    requires !CallsWrapped(wrapped, c)
    ensures Run(wrapped, c, false) == Effect([], false)
    decreases c
  {
    QuietBodyWhileOff(wrapped, c.nested);
  }

  lemma {:induction false} QuietBodyWhileOff(wrapped: map<string, Commands.Command>, cs: seq<Call>)
    requires forall i :: 0 <= i < |cs| ==> !CallsWrapped(wrapped, cs[i])
    ensures RunAll(wrapped, cs, false) == Effect([], false)
    decreases cs
  {
    if cs != [] {
      QuietWhileOff(wrapped, cs[0]);
      QuietBodyWhileOff(wrapped, cs[1..]);
      var first, rest := Run(wrapped, cs[0], false), RunAll(wrapped, cs[1..], false);
      var r := RunAll(wrapped, cs, false);
      assert r.recorded == first.recorded + rest.recorded && r.recording == rest.recording;
      assert first.recorded == [] && rest.recorded == [] && !rest.recording;
      assert r == Effect([], false);
    }
  }

  /**
   * A wrapped call entered while recording is off, whose body runs no
   * wrapped method, adds no entry, yet leaves recording on.
   */
  lemma {:induction false} WrappedCallWhileOff(wrapped: map<string, Commands.Command>, c: Call)
    requires c.methodName in wrapped
    requires forall i :: 0 <= i < |c.nested| ==> !CallsWrapped(wrapped, c.nested[i])
    ensures Run(wrapped, c, false) == Effect([], true)
  {
    QuietBodyWhileOff(wrapped, c.nested);
    var r := Run(wrapped, c, false);
    assert r.recorded == [] + RunAll(wrapped, c.nested, false).recorded;
  }

  /** An invocation whose body calls nothing records at most its own command. */
  lemma LeafRun(wrapped: map<string, Commands.Command>, c: Call, recording: bool)
    requires c.nested == []
    ensures Run(wrapped, c, recording)
      == if c.methodName !in wrapped then Effect([], recording)
         else if recording then Effect([wrapped[c.methodName]], true)
         else Effect([], true)
  {
    var none: seq<Call> := [];
    assert c.nested == none;
    if c.methodName in wrapped {
      assert RunAll(wrapped, none, false) == Effect([], false);
      var r := Run(wrapped, c, recording);
      assert r.recorded == (if recording then [wrapped[c.methodName]] else []) + [];
      if recording {
        assert r.recorded == [wrapped[c.methodName]];
        assert r == Effect([wrapped[c.methodName]], true);
      } else {
        assert r.recorded == [];
        assert r == Effect([], true);
      }
    } else {
      assert RunAll(wrapped, none, recording) == Effect([], recording);
    }
  }

  /**
   * Once a nested wrapped call returns, recording is on again while the
   * outer command is still running: of two wrapped calls made one after the
   * other by a wrapped command entered while recording, the second is
   * recorded.
   */
  lemma SecondNestedCallRecorded(wrapped: map<string, Commands.Command>, outer: string, first: string, second: string,
                                  v0: Commands.Value, v1: Commands.Value, v2: Commands.Value)
    requires outer in wrapped && first in wrapped && second in wrapped
    ensures Run(wrapped, Call(outer, [Call(first, [], v1), Call(second, [], v2)], v0), true).recorded
      == [wrapped[outer], wrapped[second]]
  {
    var c1, c2 := Call(first, [], v1), Call(second, [], v2);
    var body, tail: seq<Call> := [c1, c2], [c2];
    var none: seq<Call> := [];
    assert body[0] == c1 && body[1..] == tail && tail[0] == c2 && tail[1..] == none;
    assert RunAll(wrapped, none, true) == Effect([], true);
    LeafRun(wrapped, c1, false);
    LeafRun(wrapped, c2, true);
    assert RunAll(wrapped, tail, true) == Effect([wrapped[second]] + [], true);
    assert RunAll(wrapped, body, false) == Effect([] + [wrapped[second]], true);
    assert Run(wrapped, Call(outer, body, v0), true).recorded == [wrapped[outer]] + [wrapped[second]];
  }

  // ------------------------------------- the wrapper restoring the flag

  /**
   * The wrapper as the recording-suppression window is meant to work: the
   * flag is put back to what it was on entry, not forced on.
   */
  function RunRestoring(wrapped: map<string, Commands.Command>, c: Call, recording: bool): (r: Effect)
    ensures r.recording == recording
    decreases c
  {
    if c.methodName in wrapped then
      Effect((if recording then [wrapped[c.methodName]] else []) + RunAllRestoring(wrapped, c.nested, false).recorded, recording)
    else
      RunAllRestoring(wrapped, c.nested, recording)
  }

  function RunAllRestoring(wrapped: map<string, Commands.Command>, cs: seq<Call>, recording: bool): (r: Effect)
    ensures r.recording == recording
    decreases cs
  {
    if cs == [] then Effect([], recording)
    else
      var first := RunRestoring(wrapped, cs[0], recording);
      var rest := RunAllRestoring(wrapped, cs[1..], first.recording);
      Effect(first.recorded + rest.recorded, rest.recording)
  }

  /**
   * What an invocation returns once the wrapper keeps the value of the
   * method it wraps, `self.send(newname)`, rather than ending with the
   * assignment: every method returns its own body's value.
   */
  function ResultRestoring(wrapped: map<string, Commands.Command>, c: Call): Commands.Value
  {
    c.result
  }

  /** With the flag restored, nothing run while recording is off is recorded. */
  lemma {:induction false} RestoringSilentWhileOff(wrapped: map<string, Commands.Command>, c: Call)
    ensures RunRestoring(wrapped, c, false).recorded == []
    decreases c
  {
    RestoringBodySilentWhileOff(wrapped, c.nested);
  }

  lemma {:induction false} RestoringBodySilentWhileOff(wrapped: map<string, Commands.Command>, cs: seq<Call>)
    ensures RunAllRestoring(wrapped, cs, false).recorded == []
    decreases cs
  {
    if cs != [] {
      RestoringSilentWhileOff(wrapped, cs[0]);
      RestoringBodySilentWhileOff(wrapped, cs[1..]);
      var first, rest := RunRestoring(wrapped, cs[0], false), RunAllRestoring(wrapped, cs[1..], false);
      assert RunAllRestoring(wrapped, cs, false) == Effect(first.recorded + rest.recorded, rest.recording);
    }
  }

  /** With the flag restored, a wrapped command entered while recording is the only entry it adds. */
  lemma RestoringRecordsOnlyOutermost(wrapped: map<string, Commands.Command>, c: Call)
    requires c.methodName in wrapped
    ensures RunRestoring(wrapped, c, true) == Effect([wrapped[c.methodName]], true)
  {
    RestoringBodySilentWhileOff(wrapped, c.nested);
    var r := RunRestoring(wrapped, c, true);
    assert r.recorded == [wrapped[c.methodName]] + RunAllRestoring(wrapped, c.nested, false).recorded;
    assert r == Effect([wrapped[c.methodName]], true);
  }

  /** The wrapper saving and restoring the flag, on the history object. */
  method InvokeRestoring(h: CommandHistory, wrapped: map<string, Commands.Command>, c: Call)
    returns (v: Commands.Value)
    modifies h
    ensures v == ResultRestoring(wrapped, c)
    ensures h.history == old(h.history) + RunRestoring(wrapped, c, old(h.recording)).recorded
    ensures h.recording == old(h.recording)
    ensures h.max == old(h.max)
    decreases c, 1
  {
    if c.methodName in wrapped {
      var was := h.recording;
      h.Record(wrapped[c.methodName]);
      h.SetRecording(false);
      ghost var start := h.history;
      InvokeAllRestoring(h, wrapped, c.nested);
      assert h.history == start + RunAllRestoring(wrapped, c.nested, false).recorded;
      h.SetRecording(was);
      v := c.result;
    } else {
      InvokeAllRestoring(h, wrapped, c.nested);
      v := c.result;
    }
  }

  method InvokeAllRestoring(h: CommandHistory, wrapped: map<string, Commands.Command>, cs: seq<Call>)
    modifies h
    ensures h.history == old(h.history) + RunAllRestoring(wrapped, cs, old(h.recording)).recorded
    ensures h.recording == old(h.recording)
    ensures h.max == old(h.max)
    decreases cs, 0
  {
    ghost var start := h.history;
    ghost var flag := h.recording;
    for i := 0 to |cs|
      invariant h.history == start + RunAllRestoring(wrapped, cs[..i], flag).recorded
      invariant h.recording == flag
      invariant h.max == old(h.max)
    {
      ghost var before := RunAllRestoring(wrapped, cs[..i], flag);
      RunAllRestoringSnoc(wrapped, cs[..i], cs[i], flag);
      assert cs[..i + 1] == cs[..i] + [cs[i]];
      var _ := InvokeRestoring(h, wrapped, cs[i]);
      assert h.history == start + (before.recorded + RunRestoring(wrapped, cs[i], flag).recorded);
    }
    assert cs[..|cs|] == cs;
  }

  lemma {:induction false} RunAllRestoringSnoc(wrapped: map<string, Commands.Command>, cs: seq<Call>, c: Call, recording: bool)
    ensures RunAllRestoring(wrapped, cs + [c], recording)
      == Effect(RunAllRestoring(wrapped, cs, recording).recorded + RunRestoring(wrapped, c, recording).recorded, recording)
    decreases |cs|
  {
    if cs == [] {
      var one, none: seq<Call> := [c], [];
      assert cs + [c] == one && one[0] == c && one[1..] == none;
      var last := RunRestoring(wrapped, c, recording);
      assert RunAllRestoring(wrapped, none, recording) == Effect([], recording);
      var r := RunAllRestoring(wrapped, one, recording);
      assert r.recorded == last.recorded + [] && r.recording == recording;
      assert r == Effect([] + last.recorded, recording);
    } else {
      var first := RunRestoring(wrapped, cs[0], recording);
      assert (cs + [c])[0] == cs[0];
      assert (cs + [c])[1..] == cs[1..] + [c];
      RunAllRestoringSnoc(wrapped, cs[1..], c, recording);
      var rest := RunAllRestoring(wrapped, cs[1..], recording);
      var last := RunRestoring(wrapped, c, recording);
      assert RunAllRestoring(wrapped, cs + [c], recording) == Effect(first.recorded + (rest.recorded + last.recorded), recording);
      assert first.recorded + (rest.recorded + last.recorded) == (first.recorded + rest.recorded) + last.recorded;
    }
  }
}
