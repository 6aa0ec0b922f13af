/** The poll loop of the foot-pedal bridge.

    The loop reads the pedal's IN endpoint again and again. A report is
    unpacked into its state byte and a second byte that is ignored, decoded
    against the previous state byte, stored as the new previous state, and its
    edges are written to the virtual keyboard. A read that times out does
    nothing; any other USB error is reported and the loop goes on. A report
    that does not hold exactly two bytes cannot be unpacked: the error this
    raises is not a USB error, so it leaves the loop.

    The endless loop is modelled as a run over a finite list of read outcomes,
    and the virtual keyboard as the log of events written to it.
 */
module PollLoop {
  import opened Decoder
  import opened Keyboard

  /** What one read of the pedal's IN endpoint gives back. */
  datatype Outcome =
    | Report(data: seq<bv8>)     // the bytes read
    | TimedOut                   // no report within the read timeout
    | UsbError(message: string)  // any other USB transfer error

  /** Whether the loop goes on after an outcome, or an error has left it. */
  datatype Status = Continue | Fatal

  /** A report unpacks into (state, other) exactly when it holds two bytes. */
  predicate Unpacks(o: Outcome)
  {
    o.Report? && |o.data| == 2
  }

  /** A report of any other length raises an error the loop does not catch. */
  predicate IsFatal(o: Outcome)
  {
    o.Report? && |o.data| != 2
  }

  /** The previous state byte after an outcome: the whole state byte of a
      report that unpacks, otherwise unchanged. */
  function NextState(prev: bv8, o: Outcome): bv8
  {
    if Unpacks(o) then o.data[0] else prev
  }

  /** The events one outcome writes to the virtual keyboard. */
  function StepWrites(prev: bv8, o: Outcome): seq<Event>
  {
    if Unpacks(o) then Writes(Decode(prev, o.data[0])) else []
  }

  /** Where a run of outcomes stands: the previous state byte, everything
      written to the virtual keyboard, and whether an error has left the loop. */
  datatype Trace = Trace(state: bv8, writes: seq<Event>, fatal: bool)

  /** The run after one more outcome: once an error has left the loop nothing
      changes any more; a fatal outcome leaves it; any other outcome moves to
      its next state and adds its events. */
  function Next(t: Trace, o: Outcome): Trace
  {
    if t.fatal then t
    else if IsFatal(o) then Trace(t.state, t.writes, true)
    else Trace(NextState(t.state, o), t.writes + StepWrites(t.state, o), false)
  }

  /** A run of a list of outcomes from where t stands: outcomes are taken in
      turn until one leaves the loop. */
  function RunFrom(t: Trace, outcomes: seq<Outcome>): Trace
  {
    if outcomes == [] then t
    else Next(RunFrom(t, outcomes[..|outcomes| - 1]), outcomes[|outcomes| - 1])
  }

  /** The run of the first i + 1 outcomes is the run of the first i followed by
      the i-th. */
  lemma RunFromPrefix(t: Trace, outcomes: seq<Outcome>, i: nat)
    requires i < |outcomes|
    ensures RunFrom(t, outcomes[..i + 1]) == Next(RunFrom(t, outcomes[..i]), outcomes[i])
  {
    assert outcomes[..i + 1][..i] == outcomes[..i];
  }

  /** Once an error has left the loop, the outcomes after it change nothing. */
  lemma {:induction false} FatalIsFinal(t: Trace, outcomes: seq<Outcome>, i: nat)
    requires i <= |outcomes| && RunFrom(t, outcomes[..i]).fatal
    ensures RunFrom(t, outcomes) == RunFrom(t, outcomes[..i])
    decreases |outcomes| - i
  {
    if i < |outcomes| {
      RunFromPrefix(t, outcomes, i);
      FatalIsFinal(t, outcomes, i + 1);
    } else {
      assert outcomes[..i] == outcomes;
    }
  }

  /** Outcomes none of which is fatal never leave the loop. */
  lemma {:induction false} NoFatalRuns(t: Trace, outcomes: seq<Outcome>)
    requires !t.fatal && forall j :: 0 <= j < |outcomes| ==> !IsFatal(outcomes[j])
    ensures !RunFrom(t, outcomes).fatal
  {
    if outcomes != [] {
      NoFatalRuns(t, outcomes[..|outcomes| - 1]);
    }
  }

  /** The first fatal outcome leaves the loop where the outcomes before it
      left the run, and nothing after it is read. */
  lemma RunStopsAtFatal(t: Trace, outcomes: seq<Outcome>, i: nat)
    requires !t.fatal && i < |outcomes| && IsFatal(outcomes[i])
    requires forall j :: 0 <= j < i ==> !IsFatal(outcomes[j])
    ensures !RunFrom(t, outcomes[..i]).fatal
    ensures RunFrom(t, outcomes) == RunFrom(t, outcomes[..i]).(fatal := true)
  {
    NoFatalRuns(t, outcomes[..i]);
    RunFromPrefix(t, outcomes, i);
    FatalIsFinal(t, outcomes, i + 1);
  }

  /** The loop only ever adds to what it has written. */
  lemma {:induction false} RunExtendsWrites(t: Trace, outcomes: seq<Outcome>)
    ensures |t.writes| <= |RunFrom(t, outcomes).writes|
    ensures RunFrom(t, outcomes).writes[..|t.writes|] == t.writes
  {
    if outcomes != [] {
      var u := RunFrom(t, outcomes[..|outcomes| - 1]);
      RunExtendsWrites(t, outcomes[..|outcomes| - 1]);
      var w := Next(u, outcomes[|outcomes| - 1]).writes;
      assert w[..|u.writes|] == u.writes;
      assert w[..|t.writes|] == w[..|u.writes|][..|t.writes|];
    }
  }

  /** One outcome keeps the virtual keys in step with the pedals: from the
      keys held for the previous state, what it writes leaves the keys held
      for the state it stores. */
  lemma StepKeepsKeysInStep(prev: bv8, o: Outcome)
    ensures Replay(HeldKeys(prev), StepWrites(prev, o)) == HeldKeys(NextState(prev, o))
  {
    if Unpacks(o) {
      KeysTrackPedals(prev, o.data[0]);
    }
  }

  /** Reading the same report twice in a row writes nothing the second time. */
  lemma RepeatedReportWritesNothing(prev: bv8, o: Outcome)
    ensures StepWrites(NextState(prev, o), o) == []
  {
    if Unpacks(o) {
      DecodeSameStateIsEmpty(o.data[0]);
    }
  }

  /** The virtual keyboard, which starts with no key held, holds exactly the
      keys of the pedals held in the state t stands at. */
  predicate InStep(t: Trace)
  {
    Replay({}, t.writes) == HeldKeys(t.state)
  }

  /** One more outcome keeps the virtual keys in step with the pedals. */
  lemma NextKeepsKeysInStep(t: Trace, o: Outcome)
    requires InStep(t)
    ensures InStep(Next(t, o))
  {
    if !t.fatal && !IsFatal(o) {
      ReplayAppend({}, t.writes, StepWrites(t.state, o));
      StepKeepsKeysInStep(t.state, o);
    }
  }

  /** A whole run keeps the virtual keys in step with the pedals. */
  lemma {:induction false} RunKeepsKeysInStep(t: Trace, outcomes: seq<Outcome>)
    requires InStep(t)
    ensures InStep(RunFrom(t, outcomes))
  {
    if outcomes != [] {
      RunKeepsKeysInStep(t, outcomes[..|outcomes| - 1]);
      NextKeepsKeysInStep(RunFrom(t, outcomes[..|outcomes| - 1]), outcomes[|outcomes| - 1]);
    }
  }

  /** Going one op further writes that op's key event and sync, if it has an edge. */
  lemma WritesNextOp(ops: seq<BoundOp>, i: nat)
    requires i < |ops|
    ensures Writes(Edges(ops[..i + 1]))
         == Writes(Edges(ops[..i])) + if ops[i].changed != 0 then [Key(KeyMap(ops[i].changed), ops[i].level), Syn] else []
  {
    var op := ops[i];
    var done, e := Edges(ops[..i]), EdgeOf(op);
    assert Edges(ops[..i + 1]) == done + e by {
      assert ops[..i + 1][..i] == ops[..i];
    }
    WritesAppend(done, e);
    if op.changed != 0 {
      WritesOne(Edge(KeyMap(op.changed), op.level));
    }
  }

  /** The state of the loop: the previous state byte and the events written
      to the virtual keyboard so far. */
  class Translator {
    var previousState: bv8
    var log: seq<Event>

    /** The virtual keyboard holds exactly the keys of the pedals held in the
        last state read. */
    ghost predicate Valid()
      reads this
    {
      InStep(Trace(previousState, log, false))
    }

    /** Before the first read every pedal counts as released. */
    constructor ()
      ensures Valid()
      ensures previousState == 0 && log == []
    {
      previousState := 0;
      log := [];
      HeldKeysUnfolded(0);
    }

    /** Handles one read outcome: a timeout or a USB error changes nothing; a
        report that unpacks is stored whole as the previous state and its
        edges are written; any other report leaves the loop. */
    method Step(o: Outcome) returns (status: Status)
      modifies this
      ensures old(Valid()) ==> Valid()
      ensures Trace(previousState, log, status == Fatal) == Next(Trace(old(previousState), old(log), false), o)
      ensures Unpacks(o) ==> previousState == o.data[0]
      ensures !o.Report? ==> status == Continue && previousState == old(previousState) && log == old(log)
    {
      match o
      case TimedOut =>
        status := Continue;
        assert log + [] == log;
      case UsbError(_) =>
        status := Continue;
        assert log + [] == log;
      case Report(data) =>
        if |data| != 2 {
          status := Fatal;
          return;
        }
        var state := data[0];
        var ops := Ops(previousState, state);
        ghost var prev := previousState;
        previousState := state;
        Emit(ops);
        status := Continue;
        if old(Valid()) {
          NextKeepsKeysInStep(Trace(prev, old(log), false), o);
        }
    }

    /** Writes the edges of the ops in order, each key event followed by a sync. */
    method Emit(ops: seq<BoundOp>)
      modifies this`log
      ensures log == old(log) + Writes(Edges(ops))
    {
      for i := 0 to |ops|
        invariant log == old(log) + Writes(Edges(ops[..i]))
      {
        var op := ops[i];
        ghost var written := Writes(Edges(ops[..i]));
        WritesNextOp(ops, i);
        if op.changed != 0 {
          var key := KeyMap(op.changed);
          log := log + [Key(key, op.level)];
          log := log + [Syn];
          assert log == old(log) + (written + [Key(key, op.level), Syn]);
        }
      }
      assert ops[..|ops|] == ops;
    }

    /** Handles read outcomes in turn until one of them leaves the loop. */
    method Run(outcomes: seq<Outcome>) returns (fatal: bool)
      modifies this
      ensures old(Valid()) ==> Valid()
      ensures RunFrom(Trace(old(previousState), old(log), false), outcomes) == Trace(previousState, log, fatal)
    {
      ghost var start := Trace(previousState, log, false);
      fatal := false;
      var i := 0;
      while i < |outcomes|
        invariant 0 <= i <= |outcomes|
        invariant RunFrom(start, outcomes[..i]) == Trace(previousState, log, false)
      {
        RunFromPrefix(start, outcomes, i);
        var status := Step(outcomes[i]);
        if status == Fatal {
          fatal := true;
          FatalIsFinal(start, outcomes, i + 1);
          break;
        }
        i := i + 1;
      }
      if !fatal {
        assert outcomes[..i] == outcomes;
      }
      if old(Valid()) {
        RunKeepsKeysInStep(start, outcomes);
      }
    }
  }
}
