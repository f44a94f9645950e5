/** The worker's life in the registry: boot, the heartbeats, the idle monitor and every
    caller of `graceful_shutdown`, interleaved.

    Boot's first step, which starts the heartbeats, comes before anything else can run and
    is part of the initial state. */
module Lifecycle {
  import opened Options
  import opened Shutdown

  datatype Status = Booting | Healthy

  /** The registry entry: its status field and whether it expires. */
  datatype Entry = Entry(status: Status, ttl: bool)

  datatype Boot = Downloading | Loading | Marking(applied: bool) | Booted | BootFailed | BootStopped

  datatype Heartbeat = Absent | Ready | Sending(status: Status, applied: bool) | Sleeping | Ended | Cancelled

  /** The task of the idle monitor: asleep, in its shutdown call, or done. */
  datatype Idle = NoMonitor | Watching | Running(call: nat) | MonitorEnded

  datatype Writer = OneShot | HeartbeatLoop

  /** The commands that write the entry. */
  datatype Write = Beat(writer: Writer, status: Status) | MarkHealthy

  /** idleHandle says whether `_idle_task` refers to the monitor; requested holds the calls
      whose tasks somebody asked to cancel. */
  datatype State = State(
    calls: Calls,
    requested: set<nat>,
    boot: Boot,
    status: Status,
    oneShot: Heartbeat,
    heartbeat: Heartbeat,
    idle: Idle,
    idleHandle: bool,
    entry: Option<Entry>,
    active: bool,
    lateWrites: multiset<Write>)

  datatype Event =
    | Downloaded
    | BootFails(id: nat)
    | Loaded
    | BootApplied
    | BootResumed
    | BootCancelled
    | OneShotSends
    | OneShotApplied
    | OneShotResumed
    | LoopSends
    | LoopApplied
    | LoopResumed
    | MonitorFires(id: nat)
    | FatalError(id: nat)
    | Exits(id: nat)
    | OfCall(step: Step)
    | CancelRequested(id: nat)
    | LateWrite(write: Write)
    | Expires

  predicate IsInit(p: Params, s: State) {
    && s.calls == NO_CALLS && s.status == Booting && s.idle == NoMonitor && !s.idleHandle && s.requested == {} && s.lateWrites == multiset{}
    && (s.entry.Some? ==> s.entry.value.ttl)
    && ((s.boot == Booted && s.oneShot == s.heartbeat == Absent)   // SKIP_MODEL_LOAD
        || (s.boot == Downloading && s.oneShot == s.heartbeat == if p.enabled then Ready else Absent))
  }

  // -- Steps -----------------------------------------------------------------------------

  /** Redis applies a write: `hset` keeps the expiry of an entry, and a new entry has none;
      a heartbeat sets it. */
  function Written(s: State, w: Write): State {
    match w
    case Beat(_, status) => s.(entry := Some(Entry(status, true)), active := true)
    case MarkHealthy => s.(entry := Some(Entry(Healthy, s.entry.Some? && s.entry.value.ttl)))
  }

  /** The task gave up on a write; it may still arrive, or not. */
  function GivenUp(p: Params, s: State, w: Write, applied: bool): State {
    if applied || !p.lateDelivery then s else s.(lateWrites := s.lateWrites + multiset{w})
  }

  /** `stop_heartbeat`: the loop task is cancelled wherever it waits. */
  function StopHeartbeat(p: Params, s: State): State {
    match s.heartbeat
    case Absent => s
    case Sending(status, applied) => GivenUp(p, s.(heartbeat := Cancelled), Beat(HeartbeatLoop, status), applied)
    case _ => s.(heartbeat := Cancelled)
  }

  /** `_idle_task.done()`, for a monitor that has started. */
  predicate MonitorDone(s: State) {
    match s.idle
    case Running(id) => id in s.calls.calls && !s.calls.calls[id].pc.Waiting? && !Suspended(s.calls.calls[id].pc)
    case Watching => false
    case _ => true
  }

  /** `stop_idle_timeout`: a monitor that sleeps is cancelled there and then; one that runs,
      which may be the caller itself, has the request put down for its next suspension. */
  function StopIdleTimeout(s: State): State {
    if !s.idleHandle || MonitorDone(s) then s else
    match s.idle
    case Running(id) => s.(idleHandle := false, requested := s.requested + {id})
    case _ => s.(idleHandle := false, idle := MonitorEnded)
  }

  /** How a task goes on: asked to cancel, it leaves its suspension by the cancellation, or
      has failed before; not asked, it is not cancelled. */
  predicate TaskMay(s: State, step: Step) {
    match step
    case New(_, _) => false
    case Returned(id) => id !in s.requested
    case CallCancelled(id) => id in s.requested
    case _ => true
  }

  predicate Enabled(s: State, e: Event) {
    match e
    case Downloaded => s.boot == Downloading
    case BootFails(id) => (s.boot == Downloading || s.boot == Loading) && id !in s.calls.calls
    case Loaded => s.boot == Loading
    case BootApplied => s.boot == Marking(false)
    case BootResumed => s.boot.Marking?
    case BootCancelled => s.boot == Downloading || s.boot == Loading || s.boot.Marking?
    case OneShotSends => s.oneShot == Ready
    case OneShotApplied => s.oneShot.Sending? && !s.oneShot.applied
    case OneShotResumed => s.oneShot.Sending?
    case LoopSends => s.heartbeat == Ready || s.heartbeat == Sleeping
    case LoopApplied => s.heartbeat.Sending? && !s.heartbeat.applied
    case LoopResumed => s.heartbeat.Sending?
    case MonitorFires(id) => s.idle == Watching && id !in s.calls.calls
    case FatalError(id) => (s.boot.Marking? || s.boot == Booted || s.boot == BootStopped) && id !in s.calls.calls
    case Exits(id) => id !in s.calls.calls
    case OfCall(step) => MayStep(s.calls, step) && TaskMay(s, step)
    case CancelRequested(id) => id in s.calls.calls
    case LateWrite(write) => write in s.lateWrites
    case Expires => s.entry.Some? && s.entry.value.ttl
  }

  function NewCall(p: Params, s: State, id: nat, reason: Reason): State
    requires id !in s.calls.calls
  {
    s.(calls := AfterStep(p, s.calls, New(id, reason)))
  }

  function CallStep(p: Params, s: State, step: Step): State
    requires MayStep(s.calls, step)
  {
    var t := Stopped(p, s, step);
    t.(calls := AfterStep(p, s.calls, step),
       requested := if step.CallCancelled? then t.requested - {step.id} else t.requested,
       entry := if Effect(s.calls, step) == Some(Delete) then None else t.entry,
       active := t.active && Effect(s.calls, step) != Some(Remove))
  }

  function After(p: Params, s: State, e: Event): State
    requires Enabled(s, e)
  {
    match e
    case Downloaded => s.(boot := Loading)
    case BootFails(id) =>
      if p.enabled then NewCall(p, s, id, Unhealthy).(boot := BootFailed) else s.(boot := BootFailed)
    case Loaded => if p.enabled then s.(boot := Marking(false), status := Healthy) else s.(boot := Booted)
    case BootApplied => Written(s, MarkHealthy).(boot := Marking(true))
    case BootResumed =>
      GivenUp(p, s, MarkHealthy, s.boot.applied)
        .(boot := Booted, idle := if p.idleTimeoutSet then Watching else s.idle,
           idleHandle := s.idleHandle || p.idleTimeoutSet)
    case BootCancelled =>
      (if s.boot.Marking? then GivenUp(p, s, MarkHealthy, s.boot.applied) else s).(boot := BootStopped)
    case OneShotSends => s.(oneShot := Sending(s.status, false))
    case OneShotApplied => Written(s, Beat(OneShot, s.oneShot.status)).(oneShot := Sending(s.oneShot.status, true))
    case OneShotResumed => GivenUp(p, s, Beat(OneShot, s.oneShot.status), s.oneShot.applied).(oneShot := Ended)
    case LoopSends => s.(heartbeat := Sending(s.status, false))
    case LoopApplied =>
      Written(s, Beat(HeartbeatLoop, s.heartbeat.status)).(heartbeat := Sending(s.heartbeat.status, true))
    case LoopResumed =>
      GivenUp(p, s, Beat(HeartbeatLoop, s.heartbeat.status), s.heartbeat.applied).(heartbeat := Sleeping)
    case MonitorFires(id) => NewCall(p, StopIdleTimeout(s.(idle := Running(id))), id, IdleTimeout)
    case FatalError(id) => NewCall(p, s, id, Unhealthy)
    case Exits(id) => NewCall(p, s, id, ShutdownExit)
    case OfCall(step) => CallStep(p, s, step)
    case CancelRequested(id) => s.(requested := s.requested + {id})
    case LateWrite(write) => Written(s.(lateWrites := s.lateWrites - multiset{write}), write)
    case Expires => s.(entry := None)
  }

  /** Each of the two stops leaves alone what is the other's, and everything else. */
  lemma {:induction false} StopsTouch(p: Params, s: State)
    ensures var t := StopHeartbeat(p, s);
            && t == s.(heartbeat := t.heartbeat, lateWrites := t.lateWrites)
            && t.heartbeat == (if s.heartbeat == Absent then Absent else Cancelled)
            && (!p.lateDelivery ==> t.lateWrites == s.lateWrites)
  {
  }

  lemma {:induction false} StopIdleTouches(s: State)
    ensures var t := StopIdleTimeout(s); t == s.(idle := t.idle, idleHandle := t.idleHandle, requested := t.requested)
    ensures StopIdleTimeout(s).idle == Watching ==> s.idle == Watching && !s.idleHandle
  {
  }

  lemma {:induction false} StopIdleDependsOn(s: State, t: State)
    requires s.idle == t.idle && s.idleHandle == t.idleHandle && s.requested == t.requested && s.calls == t.calls
    ensures var u, v := StopIdleTimeout(s), StopIdleTimeout(t);
            u.idle == v.idle && u.idleHandle == v.idleHandle && u.requested == v.requested
  {
  }

  /** The worker behind the stops of a call that passes the guard. */
  function Stopped(p: Params, s: State, step: Step): State {
    if step.Guard? && !s.calls.signaled then StopIdleTimeout(StopHeartbeat(p, s)) else s
  }

  lemma {:induction false} StoppedEffect(p: Params, s: State, step: Step)
    ensures var t := Stopped(p, s, step);
            && t == s.(heartbeat := t.heartbeat, lateWrites := t.lateWrites,
                       idle := t.idle, idleHandle := t.idleHandle, requested := t.requested)
            && (!p.lateDelivery ==> t.lateWrites == s.lateWrites)
            && t.heartbeat == (if step.Guard? && !s.calls.signaled && s.heartbeat != Absent then Cancelled else s.heartbeat)
            && t.requested == (if step.Guard? && !s.calls.signaled then StopIdleTimeout(s).requested else s.requested)
            && (t.idle == Watching ==> s.idle == Watching && t.idleHandle == s.idleHandle)
  {
    StopsTouch(p, s);
    StopIdleTouches(StopHeartbeat(p, s));
    StopIdleDependsOn(StopHeartbeat(p, s), s);
    StopIdleTouches(s);
  }

  /** What a step of a shutdown call does to the rest of the worker. */
  lemma {:induction false} CallStepEffect(p: Params, s: State, step: Step)
    requires !step.New? && MayStep(s.calls, step)
    ensures var t := CallStep(p, s, step);
            && t.calls == AfterStep(p, s.calls, step)
            && t.boot == s.boot && t.status == s.status && t.oneShot == s.oneShot
            && t.entry == (if Effect(s.calls, step) == Some(Delete) then None else s.entry)
            && t.active == (s.active && Effect(s.calls, step) != Some(Remove))
            && (!p.lateDelivery ==> t.lateWrites == s.lateWrites)
            && t.heartbeat == (if step.Guard? && !s.calls.signaled && s.heartbeat != Absent then Cancelled else s.heartbeat)
  {
    StoppedEffect(p, s, step);
  }

  /** What it does to the cancellation of tasks. */
  lemma {:induction false} CallStepTasks(p: Params, s: State, step: Step)
    requires !step.New? && MayStep(s.calls, step)
    ensures var t := CallStep(p, s, step);
            && t.requested == (if step.CallCancelled? then s.requested - {step.id}
                               else if step.Guard? && !s.calls.signaled then StopIdleTimeout(s).requested else s.requested)
            && (t.idle == Watching ==> s.idle == Watching && t.idleHandle == s.idleHandle)
  {
    StoppedEffect(p, s, step);
  }

  /** The globals behind the guard. */
  predicate Entered(p: Params, s: State, id: nat, t: State) {
    && t.calls.signaled && id in t.calls.calls
    && if s.calls.signaled
       then t.heartbeat == s.heartbeat && t.idle == s.idle && t.idleHandle == s.idleHandle
            && t.requested == s.requested && t.calls.calls[id].pc == Skipping
       else var u := StopIdleTimeout(s);
            && t.heartbeat == (if s.heartbeat == Absent then Absent else Cancelled)
            && t.idle == u.idle && t.idleHandle == u.idleHandle && t.requested == u.requested
            && t.calls.calls[id].pc == if p.enabled then Publishing(false) else Unsent
  }

  lemma {:induction false} GuardStep(p: Params, s: State, id: nat)
    requires id in s.calls.calls && s.calls.calls[id].pc == Waiting
    ensures Entered(p, s, id, CallStep(p, s, Guard(id)))
  {
    StopsTouch(p, s);
    StopIdleTouches(StopHeartbeat(p, s));
    StopIdleDependsOn(StopHeartbeat(p, s), s);
  }

  // -- The synchronous parts, on the modules' globals ---------------------------------------

  class Globals {
    var shutdownSignaled: bool
    var heartbeatTask: Heartbeat
    var idleTask: Idle
    var idleHandle: bool
    var requested: set<nat>

    constructor (heartbeatTask: Heartbeat)
      ensures !shutdownSignaled && this.heartbeatTask == heartbeatTask
      ensures idleTask == NoMonitor && !idleHandle && requested == {}
    {
      shutdownSignaled, idleTask, idleHandle, requested := false, NoMonitor, false, {};
      this.heartbeatTask := heartbeatTask;
    }

    predicate HasIdle(s: State)
      reads this
    {
      s.idle == idleTask && s.idleHandle == idleHandle && s.requested == requested
    }

    method StopHeartbeatTask()
      modifies this`heartbeatTask
      ensures forall p, s: State :: s.heartbeat == old(heartbeatTask) ==>
                StopHeartbeat(p, s).heartbeat == heartbeatTask
    {
      if heartbeatTask != Absent {
        heartbeatTask := Cancelled;
      }
    }

    /** done is what the task says of itself. */
    method StopIdleTask(done: bool)
      modifies this`idleTask, this`idleHandle, this`requested
      ensures forall s: State :: old(HasIdle(s)) && MonitorDone(s) == done ==> HasIdle(StopIdleTimeout(s))
    {
      if idleHandle && !done {
        match idleTask {
          case Running(id) => requested := requested + {id};
          case _ => idleTask := MonitorEnded;
        }
        idleHandle := false;
      }
    }

    /** `graceful_shutdown` up to its first await: test and set of the flag, and the two
        stops, with no step of another task in between. */
    method EnterShutdown(enabled: bool, done: bool) returns (pc: Pc)
      modifies this
      ensures forall p: Params, s: State, id ::
                p.enabled == enabled && id in s.calls.calls && s.calls.calls[id].pc == Waiting
                && s.calls.signaled == old(shutdownSignaled) && s.heartbeat == old(heartbeatTask)
                && old(HasIdle(s)) && MonitorDone(s) == done
                ==> var t := CallStep(p, s, Guard(id));
                    && t.calls.signaled == shutdownSignaled && t.heartbeat == heartbeatTask
                    && HasIdle(t) && t.calls.calls[id].pc == pc
    {
      forall p: Params, s: State, id | id in s.calls.calls && s.calls.calls[id].pc == Waiting
        ensures Entered(p, s, id, CallStep(p, s, Guard(id)))
      {
        GuardStep(p, s, id);
      }
      if shutdownSignaled {
        return Skipping;
      }
      shutdownSignaled := true;
      StopHeartbeatTask();
      StopIdleTask(done);
      pc := if enabled then Publishing(false) else Unsent;
    }
  }

  /** The registry entry as Redis keeps it, and the commands on it. */
  class Registry {
    var entry: Option<Entry>
    var active: bool

    constructor ()
      ensures entry == None && !active
    {
      entry, active := None, false;
    }

    predicate Shows(s: State)
      reads this
    {
      s.entry == entry && s.active == active
    }

    method SetStatus(status: Status)
      modifies this`entry
      ensures entry == Some(Entry(status, old(entry) != None && old(entry).value.ttl))
    {
      entry := Some(Entry(status, entry.Some? && entry.value.ttl));
    }

    method Expire()
      modifies this`entry
      ensures entry == if old(entry) == None then None else Some(Entry(old(entry).value.status, true))
    {
      if entry.Some? {
        entry := Some(entry.value.(ttl := true));
      }
    }

    /** The pipeline of one heartbeat. */
    method Heartbeat(status: Status)
      modifies this
      ensures forall s: State, w :: old(Shows(s)) ==> Shows(Written(s, Beat(w, status)))
    {
      SetStatus(status);
      Expire();
      active := true;
    }

    method MarkHealthyNow()
      modifies this`entry
      ensures forall s: State :: old(Shows(s)) ==> Shows(Written(s, MarkHealthy))
    {
      SetStatus(Healthy);
    }

    /** Both commands of `deregister`, when nothing comes between them. */
    method Deregister()
      modifies this
      ensures forall p: Params, s: State, id ::
                old(Shows(s)) && id in s.calls.calls && s.calls.calls[id].pc == Deleting(false)
                ==> Shows(CallStep(p, s, Applied(id)).(active := false))
    {
      entry := None;
      active := false;
    }
  }
}
