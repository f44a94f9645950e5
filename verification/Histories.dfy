/** What a state of a run says of the events before it: which status a heartbeat carries, why
    there is a shutdown call, and what a worker without registry or timeout never does. */
module Histories {
  import opened Options
  import opened Shutdown
  import opened Lifecycle
  import opened Runs

  // -- The status a heartbeat carries --------------------------------------------------------

  function SendOf(writer: Writer): Event {
    match writer
    case OneShot => OneShotSends
    case HeartbeatLoop => LoopSends
  }

  function TaskOf(s: State, writer: Writer): Heartbeat {
    match writer
    case OneShot => s.oneShot
    case HeartbeatLoop => s.heartbeat
  }

  /** The writer sent a heartbeat there, while the worker had this status. */
  predicate SentAt(r: Run, i: nat, writer: Writer, status: Status) {
    i < |r.events| && i < |r.states| && r.events[i] == SendOf(writer) && r.states[i].status == status
  }

  /** One event leaves a heartbeat in flight as it is, unless it is the one that sends it. */
  lemma {:induction false} InFlight(p: Params, s: State, e: Event, writer: Writer)
    requires Enabled(s, e) && TaskOf(After(p, s, e), writer).Sending?
    ensures var t := TaskOf(After(p, s, e), writer);
            (e == SendOf(writer) && t.status == s.status)
            || (e != SendOf(writer) && TaskOf(s, writer).Sending? && TaskOf(s, writer).status == t.status)
  {
    if e.OfCall? {
      CallStepEffect(p, s, e.step);
    }
  }

  /** A heartbeat in flight carries the status of the moment it was sent. */
  lemma {:induction false} FlightWasSent(p: Params, r: Run, k: nat, writer: Writer) returns (i: nat)
    requires r.Valid(p) && k < |r.states| && TaskOf(r.states[k], writer).Sending?
    ensures i < k && SentAt(r, i, writer, TaskOf(r.states[k], writer).status)
    ensures forall j :: i < j < k ==> r.events[j] != SendOf(writer)
  {
    assert k > 0;
    assert r.StepAt(p, k - 1);
    InFlight(p, r.states[k - 1], r.events[k - 1], writer);
    i := k - 1;
    if r.events[i] != SendOf(writer) {
      i := FlightWasSent(p, r, i, writer);
    }
  }

  /** A heartbeat the network holds back was in flight before. */
  lemma {:induction false} HeldBack(p: Params, s: State, e: Event, writer: Writer, status: Status)
    requires Enabled(s, e) && Beat(writer, status) in After(p, s, e).lateWrites
    ensures Beat(writer, status) in s.lateWrites || TaskOf(s, writer) == Sending(status, false)
  {
    if e.OfCall? {
      StopsKeepWrites(p, s, e.step, writer, status);
    }
  }

  lemma {:induction false} StopsKeepWrites(p: Params, s: State, step: Step, writer: Writer, status: Status)
    requires MayStep(s.calls, step) && TaskMay(s, step) && Beat(writer, status) in CallStep(p, s, step).lateWrites
    ensures Beat(writer, status) in s.lateWrites || TaskOf(s, writer) == Sending(status, false)
  {
    StoppedEffect(p, s, step);
    StopIdleTouches(StopHeartbeat(p, s));
  }

  lemma {:induction false} LateWasSent(p: Params, r: Run, k: nat, writer: Writer, status: Status) returns (i: nat)
    requires r.Valid(p) && k < |r.states| && Beat(writer, status) in r.states[k].lateWrites
    ensures i < k && SentAt(r, i, writer, status)
  {
    assert k > 0;
    assert r.StepAt(p, k - 1);
    HeldBack(p, r.states[k - 1], r.events[k - 1], writer, status);
    if Beat(writer, status) in r.states[k - 1].lateWrites {
      i := LateWasSent(p, r, k - 1, writer, status);
    } else {
      i := FlightWasSent(p, r, k - 1, writer);
    }
  }

  /** The heartbeat of the writer that an event applies, if any. */
  function AppliedBeat(s: State, e: Event): Option<(Writer, Status)> {
    match e
    case OneShotApplied => if s.oneShot.Sending? then Some((OneShot, s.oneShot.status)) else None
    case LoopApplied => if s.heartbeat.Sending? then Some((HeartbeatLoop, s.heartbeat.status)) else None
    case LateWrite(Beat(writer, status)) => Some((writer, status))
    case _ => None
  }

  /** An entry written by a heartbeat says the status the worker had when that heartbeat was
      sent, expires, and makes the worker a member. */
  lemma {:induction false} EntrySaysStatus(p: Params, r: Run, k: nat) returns (i: nat)
    requires r.Valid(p) && k < |r.events| && AppliedBeat(r.states[k], r.events[k]).Some?
    ensures i < k && r.events[i] == SendOf(AppliedBeat(r.states[k], r.events[k]).value.0)
    ensures r.states[k + 1].entry == Some(Entry(r.states[i].status, true)) && r.states[k + 1].active
  {
    assert r.StepAt(p, k);
    var (writer, status) := AppliedBeat(r.states[k], r.events[k]).value;
    if r.events[k].LateWrite? {
      i := LateWasSent(p, r, k, writer, status);
    } else {
      i := FlightWasSent(p, r, k, writer);
    }
  }

  /** No heartbeat that says booting is still on its way. */
  ghost predicate NoneBooting(s: State) {
    && s.heartbeat != Sending(Booting, false) && s.oneShot != Sending(Booting, false)
    && forall writer :: Beat(writer, Booting) !in s.lateWrites
  }

  lemma {:induction false} StatusStays(p: Params, s: State, e: Event)
    requires Enabled(s, e) && s.status == Healthy
    ensures After(p, s, e).status == Healthy
  {
    if e.OfCall? {
      CallStepEffect(p, s, e.step);
    }
  }

  /** A worker that has loaded its model stays healthy. */
  lemma {:induction false} LoadedIsHealthy(p: Params, r: Run, i: nat, k: nat)
    requires r.Valid(p) && p.enabled && i < k < |r.states| && r.events[i] == Loaded
    ensures r.states[k].status == Healthy
  {
    assert r.StepAt(p, k - 1);
    if i < k - 1 {
      LoadedIsHealthy(p, r, i, k - 1);
      StatusStays(p, r.states[k - 1], r.events[k - 1]);
    }
  }

  lemma {:induction false} NoneBootingStays(p: Params, s: State, e: Event)
    requires Enabled(s, e) && s.status == Healthy && NoneBooting(s)
    ensures NoneBooting(After(p, s, e))
  {
    var t := After(p, s, e);
    forall writer ensures Beat(writer, Booting) !in t.lateWrites && TaskOf(t, writer) != Sending(Booting, false) {
      if Beat(writer, Booting) in t.lateWrites {
        HeldBack(p, s, e, writer, Booting);
      }
      if TaskOf(t, writer) == Sending(Booting, false) {
        InFlight(p, s, e, writer);
        FlightNotApplied(p, s, e, writer);
      }
    }
    assert TaskOf(t, HeartbeatLoop) == t.heartbeat && TaskOf(t, OneShot) == t.oneShot;
  }

  lemma {:induction false} FlightNotApplied(p: Params, s: State, e: Event, writer: Writer)
    requires Enabled(s, e) && e != SendOf(writer)
    ensures forall status :: TaskOf(After(p, s, e), writer) == Sending(status, false) ==> TaskOf(s, writer) == Sending(status, false)
  {
    if e.OfCall? {
      CallStepEffect(p, s, e.step);
    }
  }

  lemma {:induction false} NoneBootingLater(p: Params, r: Run, i: nat, k: nat)
    requires r.Valid(p) && i <= k < |r.states| && r.states[i].status == Healthy && NoneBooting(r.states[i])
    ensures r.states[k].status == Healthy && NoneBooting(r.states[k])
  {
    if i < k {
      NoneBootingLater(p, r, i, k - 1);
      assert r.StepAt(p, k - 1);
      StatusStays(p, r.states[k - 1], r.events[k - 1]);
      NoneBootingStays(p, r.states[k - 1], r.events[k - 1]);
    }
  }

  predicate Writes(e: Event) {
    e == BootApplied || e == OneShotApplied || e == LoopApplied || e.LateWrite?
  }

  /** Behind the load of an enabled worker, once no heartbeat sent before is on its way, every
      write says healthy. */
  lemma {:induction false} NeverBootingAgain(p: Params, r: Run, l: nat, i: nat, k: nat)
    requires r.Valid(p) && p.enabled && l < i <= k < |r.events| && r.events[l] == Loaded
    requires NoneBooting(r.states[i]) && Writes(r.events[k])
    ensures r.states[k + 1].entry.Some? && r.states[k + 1].entry.value.status == Healthy
  {
    LoadedIsHealthy(p, r, l, i);
    NoneBootingLater(p, r, i, k);
    assert r.StepAt(p, k);
    WriteSays(p, r.states[k], r.events[k]);
  }

  lemma {:induction false} WriteSays(p: Params, s: State, e: Event)
    requires Enabled(s, e) && NoneBooting(s) && Writes(e)
    ensures After(p, s, e).entry.Some? && After(p, s, e).entry.value.status == Healthy
  {
    if e.LateWrite? {
      LateWriteSays(p, s, e.write);
    }
  }

  lemma {:induction false} LateWriteSays(p: Params, s: State, w: Write)
    requires w in s.lateWrites && NoneBooting(s)
    ensures After(p, s, LateWrite(w)).entry.Some? && After(p, s, LateWrite(w)).entry.value.status == Healthy
  {
    if w.Beat? {
      assert Beat(w.writer, w.status) in s.lateWrites;
    }
  }

  // -- Why there is a shutdown call -------------------------------------------------------------

  /** The event that calls for a shutdown with this reason. */
  predicate CallsFor(e: Event, id: nat, reason: Reason) {
    match reason
    case IdleTimeout => e == MonitorFires(id)
    case Unhealthy => e == BootFails(id) || e == FatalError(id)
    case ShutdownExit => e == Exits(id)
  }

  /** A call for idle timeout is the monitor's, an unhealthy one boot's or a fatal error's,
      any other the exit's. */
  lemma {:induction false} ReasonHasCause(p: Params, r: Run, k: nat, id: nat) returns (i: nat)
    requires r.Valid(p) && k < |r.states| && id in r.Calls(k).calls
    ensures i < k && CallsFor(r.events[i], id, r.Calls(k).calls[id].reason)
  {
    assert k > 0;
    assert r.StepAt(p, k - 1);
    var s, e := r.states[k - 1], r.events[k - 1];
    EventMovesCalls(p, s, e);
    CauseStep(p, s.calls, e, id);
    i := k - 1;
    if id in s.calls.calls {
      i := ReasonHasCause(p, r, k - 1, id);
    }
  }

  lemma {:induction false} CauseStep(p: Params, c: Calls, e: Event, id: nat)
    requires (CallStepOf(p, e).Some? ==> MayStep(c, CallStepOf(p, e).value)) && (e.OfCall? ==> !e.step.New?)
    ensures var d := if CallStepOf(p, e).Some? then AfterStep(p, c, CallStepOf(p, e).value) else c;
            id in d.calls ==> if id in c.calls then d.calls[id].reason == c.calls[id].reason else CallsFor(e, id, d.calls[id].reason)
  {
    match e
    case BootFails(x) => assert CallsFor(e, x, Unhealthy);
    case FatalError(x) => assert CallsFor(e, x, Unhealthy);
    case MonitorFires(x) => assert CallsFor(e, x, IdleTimeout);
    case Exits(x) => assert CallsFor(e, x, ShutdownExit);
    case OfCall(step) =>
      StepKeepsReasons(p, c, step);
    case _ =>
  }

  /** And each of these does call for a shutdown, a failing boot where the heartbeat is enabled. */
  lemma {:induction false} CauseCalls(p: Params, r: Run, k: nat, id: nat, reason: Reason)
    requires r.Valid(p) && k < |r.events| && CallsFor(r.events[k], id, reason)
    requires r.events[k].BootFails? ==> p.enabled
    ensures id in r.Calls(k + 1).calls && r.Calls(k + 1).calls[id] == Call(reason, Waiting)
  {
    assert r.StepAt(p, k);
    EventMovesCalls(p, r.states[k], r.events[k]);
  }

  // -- Errors --------------------------------------------------------------------------------------

  /** This call is the first, and its publish raised or was cancelled. */
  predicate PublishEnded(c: Calls, w: nat) {
    var call := FirstIf(c, w);
    call.Some? && (call.value.pc.PublishFailed? || call.value.pc.PublishCancelled?)
  }

  lemma {:induction false} EndedStep(p: Params, c: Calls, e: Step, w: nat)
    requires Inv(p, c) && MayStep(c, e) && PublishEnded(c, w)
    ensures PublishEnded(AfterStep(p, c, e), w) && !Deregisters(c, e)
  {
    StepSetsFlag(p, c, e);
    StepMovesOne(p, c, e, w);
    if Deregisters(c, e) {
      DeregistersBehindPublish(p, c, e);
    }
  }

  lemma {:induction false} EndedStays(p: Params, r: Run, w: nat, i: nat, k: nat)
    requires r.Valid(p) && i <= k < |r.states| && PublishEnded(r.Calls(i), w)
    ensures PublishEnded(r.Calls(k), w)
  {
    if i < k {
      EndedStays(p, r, w, i, k - 1);
      CallsInv(p, r, k - 1);
      assert r.StepAt(p, k - 1);
      EventMovesCalls(p, r.states[k - 1], r.events[k - 1]);
      var step := CallStepOf(p, r.events[k - 1]);
      if step.Some? {
        EndedStep(p, r.Calls(k - 1), step.value, w);
      }
    }
  }

  /** An error or a cancellation of the publish ends the call: nothing is ever deregistered. */
  lemma {:induction false} FailedPublishStops(p: Params, r: Run, w: nat, i: nat, k: nat)
    requires r.Valid(p) && i <= k < |r.events| && PublishEnded(r.Calls(i), w)
    requires r.StepAt(p, k)
    ensures !Deregistering(r.states[k], r.events[k])
  {
    EndedStays(p, r, w, i, k);
    CallsInv(p, r, k);
    if r.events[k].OfCall? {
      EndedStep(p, r.Calls(k), r.events[k].step, w);
    }
  }

  /** An error while deregistering does not keep the call from closing the connection, and a
      call that comes second closes it too. */
  lemma {:induction false} ErrorsAreSwallowed(p: Params, r: Run, k: nat, id: nat)
    requires r.Valid(p) && k < |r.events| && r.events[k] == OfCall(Raised(id))
    ensures id in r.Calls(k).calls && id in r.Calls(k + 1).calls
    ensures r.Calls(k).calls[id].pc.Deleting? || r.Calls(k).calls[id].pc.Removing? ==> r.Calls(k + 1).calls[id].pc == Closing
    ensures r.Calls(k).calls[id].pc.Publishing? ==> r.Calls(k + 1).calls[id].pc.PublishFailed?
    ensures r.Calls(k).calls[id].pc.Skipping? ==> r.Calls(k + 1).calls[id].pc == Skipped
  {
    assert r.StepAt(p, k);
    EventMovesCalls(p, r.states[k], r.events[k]);
    StepMovesOne(p, r.Calls(k), Raised(id), id);
  }

  /** A cancellation is not swallowed: a call cancelled while it deregisters or closes stops
      there, one that comes second is done. */
  lemma {:induction false} CancellationsStop(p: Params, r: Run, k: nat, id: nat)
    requires r.Valid(p) && k < |r.events| && r.events[k] == OfCall(CallCancelled(id))
    ensures id in r.Calls(k).calls && id in r.Calls(k + 1).calls
    ensures var pc, to := r.Calls(k).calls[id].pc, r.Calls(k + 1).calls[id].pc;
            if pc.Publishing? then to.PublishCancelled? else if pc.Skipping? then to.Skipped? else to.Halted?
  {
    assert r.StepAt(p, k);
    EventMovesCalls(p, r.states[k], r.events[k]);
    StepMovesOne(p, r.Calls(k), CallCancelled(id), id);
  }

  // -- What never happens ------------------------------------------------------------------------

  /** Without an idle timeout there is never a monitor. */
  lemma {:induction false} NoTimeoutNoMonitor(p: Params, r: Run, k: nat)
    requires r.Valid(p) && !p.idleTimeoutSet && k < |r.states|
    ensures r.states[k].idle == NoMonitor
  {
    if k > 0 {
      NoTimeoutNoMonitor(p, r, k - 1);
      assert r.StepAt(p, k - 1);
      NoMonitorStep(p, r.states[k - 1], r.events[k - 1]);
    }
  }

  lemma {:induction false} NoMonitorStep(p: Params, s: State, e: Event)
    requires Enabled(s, e) && !p.idleTimeoutSet && s.idle == NoMonitor
    ensures After(p, s, e).idle == NoMonitor
  {
    if e.OfCall? {
      StopIdleTouches(s);
      StopIdleDependsOn(StopHeartbeat(p, s), s);
    }
  }

  /** So no shutdown is ever called for idle timeout. */
  lemma {:induction false} NoTimeoutNoCall(p: Params, r: Run, k: nat, id: nat)
    requires r.Valid(p) && !p.idleTimeoutSet && k < |r.states| && id in r.Calls(k).calls
    ensures r.Calls(k).calls[id].reason != IdleTimeout
  {
    var i := ReasonHasCause(p, r, k, id);
    NoTimeoutNoMonitor(p, r, i);
    assert r.StepAt(p, i);
  }

  /** A call that passes the guard leaves no monitor asleep. */
  lemma {:induction false} GuardStopsMonitor(p: Params, r: Run, k: nat, id: nat)
    requires r.Valid(p) && k < |r.events| && r.events[k] == OfCall(Guard(id)) && !r.Calls(k).signaled
    ensures r.states[k + 1].idle != Watching && r.states[k + 1].heartbeat in {Absent, Cancelled}
  {
    assert r.StepAt(p, k);
    OwnInvHolds(p, r, k);
    GuardStep(p, r.states[k], id);
  }

  /** With the heartbeat disabled the worker has no tasks of its own and no shutdown publishes
      anything. */
  ghost predicate OutOfRegistry(s: State) {
    && s.oneShot == Absent && s.heartbeat == Absent && !s.boot.Marking? && s.lateWrites == multiset{}
  }

  lemma {:induction false} DisabledStaysOut(p: Params, r: Run, k: nat)
    requires r.Valid(p) && !p.enabled && k < |r.states|
    ensures OutOfRegistry(r.states[k]) && r.Calls(k).published == []
  {
    CallsInv(p, r, k);
    if k > 0 {
      DisabledStaysOut(p, r, k - 1);
      assert r.StepAt(p, k - 1);
      OutStep(p, r.states[k - 1], r.events[k - 1]);
    }
  }

  lemma {:induction false} OutStep(p: Params, s: State, e: Event)
    requires Enabled(s, e) && !p.enabled && OutOfRegistry(s)
    ensures OutOfRegistry(After(p, s, e))
  {
    if e.OfCall? {
      CallStepEffect(p, s, e.step);
      StopsTouch(p, s);
      StoppedEffect(p, s, e.step);
      DisabledStops(p, s, e.step);
    }
  }

  lemma {:induction false} DisabledStops(p: Params, s: State, step: Step)
    requires s.heartbeat == Absent && MayStep(s.calls, step)
    ensures CallStep(p, s, step).lateWrites == s.lateWrites
  {
    assert StopHeartbeat(p, s) == s;
    StopIdleTouches(s);
  }
}
