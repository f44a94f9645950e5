/** What holds over every run of the worker. */
module Runs {
  import opened Options
  import opened Shutdown
  import opened Lifecycle

  datatype Run = Run(states: seq<State>, events: seq<Event>) {
    ghost predicate Valid(p: Params) {
      && |states| == |events| + 1 && IsInit(p, states[0])
      && forall i :: 0 <= i < |events| ==> StepAt(p, i)
    }

    ghost predicate StepAt(p: Params, i: nat)
      requires |states| == |events| + 1 && i < |events|
    {
      Enabled(states[i], events[i]) && states[i + 1] == After(p, states[i], events[i])
    }

    function Last(): State
      requires |states| > 0
    {
      states[|states| - 1]
    }

    /** The run with one more event. */
    ghost function Then(p: Params, e: Event): (r: Run)
      requires Valid(p) && Enabled(Last(), e)
      ensures r.Valid(p) && r.states[0] == states[0] && r.Last() == After(p, Last(), e)
    {
      var r := Run(states + [After(p, Last(), e)], events + [e]);
      assert forall i :: 0 <= i < |events| ==> StepAt(p, i) ==> r.StepAt(p, i);
      assert r.StepAt(p, |events|);
      r
    }

    function Calls(k: nat): Calls
      requires k < |states|
    {
      states[k].calls
    }
  }

  // -- The invariant holds throughout --------------------------------------------------------

  /** The step of one call that an event of the worker takes, if any. */
  function CallStepOf(p: Params, e: Event): Option<Step> {
    match e
    case BootFails(id) => if p.enabled then Some(New(id, Unhealthy)) else None
    case MonitorFires(id) => Some(New(id, IdleTimeout))
    case FatalError(id) => Some(New(id, Unhealthy))
    case Exits(id) => Some(New(id, ShutdownExit))
    case OfCall(step) => Some(step)
    case _ => None
  }

  lemma {:induction false} EventMovesCalls(p: Params, s: State, e: Event)
    requires Enabled(s, e)
    ensures match CallStepOf(p, e)
            case None => After(p, s, e).calls == s.calls
            case Some(step) => MayStep(s.calls, step) && After(p, s, e).calls == AfterStep(p, s.calls, step)
  {
    if e.MonitorFires? {
      StopIdleTouches(s.(idle := Running(e.id)));
    } else if e.OfCall? {
      CallStepEffect(p, s, e.step);
    }
  }

  lemma {:induction false} CallsInv(p: Params, r: Run, k: nat)
    requires r.Valid(p) && k < |r.states|
    ensures Inv(p, r.Calls(k))
  {
    if k > 0 {
      CallsInv(p, r, k - 1);
      assert r.StepAt(p, k - 1);
      EventMovesCalls(p, r.states[k - 1], r.events[k - 1]);
      var step := CallStepOf(p, r.events[k - 1]);
      if step.Some? {
        StepInv(p, r.Calls(k - 1), step.value);
      }
    }
  }

  // -- The flag and the single publish ---------------------------------------------------------

  /** The first call at the guard, and its reason. */
  function Winner(c: Calls): Option<(nat, Reason)> {
    if c.winner.Some? && c.winner.value in c.calls then Some((c.winner.value, First(c).reason)) else None
  }

  /** The flag never falls, and who set it, and why, never changes. */
  lemma {:induction false} FlagNeverFalls(p: Params, r: Run, i: nat, k: nat)
    requires r.Valid(p) && i <= k < |r.states| && r.Calls(i).signaled
    ensures r.Calls(k).signaled && Winner(r.Calls(k)) == Winner(r.Calls(i))
  {
    if i < k {
      FlagNeverFalls(p, r, i, k - 1);
      CallsInv(p, r, k - 1);
      assert r.StepAt(p, k - 1);
      EventMovesCalls(p, r.states[k - 1], r.events[k - 1]);
      var step := CallStepOf(p, r.events[k - 1]);
      if step.Some? {
        StepKeepsWinner(p, r.Calls(k - 1), step.value);
      }
    }
  }

  /** Whichever two calls are ever past the guard, at whatever times, they are one call. */
  lemma {:induction false} OneAttempt(p: Params, r: Run, i: nat, k: nat, x: nat, y: nat)
    requires r.Valid(p) && i < |r.states| && k < |r.states|
    requires x in r.Calls(i).calls && IsFirst(r.Calls(i).calls[x].pc)
    requires y in r.Calls(k).calls && IsFirst(r.Calls(k).calls[y].pc)
    ensures x == y
  {
    CallsInv(p, r, i);
    CallsInv(p, r, k);
    if i <= k {
      FlagNeverFalls(p, r, i, k);
    } else {
      FlagNeverFalls(p, r, k, i);
    }
  }

  /** At most one message is ever published, and it carries the reason of the call that
      passed the guard. */
  lemma {:induction false} OnePublishAtMost(p: Params, r: Run, k: nat)
    requires r.Valid(p) && k < |r.states|
    ensures r.Calls(k).published != [] ==>
              && r.Calls(k).winner.Some? && r.Calls(k).winner.value in r.Calls(k).calls
              && r.Calls(k).published == [First(r.Calls(k)).reason]
  {
    CallsInv(p, r, k);
  }

  /** The states with the flag set and nothing published, exactly: the one attempt is
      pending, failed, was cancelled, or is not made because the heartbeat is disabled. */
  lemma {:induction false} SilentExactly(p: Params, r: Run, k: nat)
    requires r.Valid(p) && k < |r.states|
    ensures r.Calls(k).signaled && r.Calls(k).published == [] <==>
              && r.Calls(k).winner.Some? && r.Calls(k).winner.value in r.Calls(k).calls
              && var pc := First(r.Calls(k)).pc;
                 pc == Publishing(false) || pc == PublishFailed(false) || pc == PublishCancelled(false)
                 || pc == Unsent
    ensures r.Calls(k).winner.Some? ==>
              r.Calls(k).winner.value in r.Calls(k).calls && (First(r.Calls(k)).pc == Unsent <==> !p.enabled)
  {
    CallsInv(p, r, k);
  }

  /** The first call, if it is this one. */
  function FirstIf(c: Calls, w: nat): Option<Call> {
    if c.winner == Some(w) && w in c.calls then Some(First(c)) else None
  }

  /** The call of a publish that was lost stays the first, as it is. */
  lemma {:induction false} LostStays(p: Params, r: Run, w: nat, i: nat, k: nat)
    requires r.Valid(p) && i <= k < |r.states| && Publish(w) !in r.Calls(i).late
    requires FirstIf(r.Calls(i), w).Some? && Lost(FirstIf(r.Calls(i), w).value.pc)
    ensures FirstIf(r.Calls(k), w) == FirstIf(r.Calls(i), w) && Publish(w) !in r.Calls(k).late
  {
    if i < k {
      LostStays(p, r, w, i, k - 1);
      CallsInv(p, r, k - 1);
      assert r.StepAt(p, k - 1);
      EventMovesCalls(p, r.states[k - 1], r.events[k - 1]);
      var step := CallStepOf(p, r.events[k - 1]);
      if step.Some? {
        StepKeepsLoss(p, r.Calls(k - 1), step.value);
      }
    }
  }

  /** A publish that was lost is never made good: whatever shutdown calls follow, the flag
      stays set and nothing is published. */
  lemma {:induction false} LostForGood(p: Params, r: Run, w: nat, i: nat, k: nat)
    requires r.Valid(p) && i <= k < |r.states| && Publish(w) !in r.Calls(i).late
    requires FirstIf(r.Calls(i), w).Some? && Lost(FirstIf(r.Calls(i), w).value.pc)
    ensures r.Calls(k).signaled && r.Calls(k).published == []
  {
    LostStays(p, r, w, i, k);
    CallsInv(p, r, k);
  }

  // -- The first reason decides ------------------------------------------------------------------

  /** The event takes the worker's hash or its membership out of the registry. */
  predicate Deregistering(s: State, e: Event)
    requires Enabled(s, e)
  {
    e.OfCall? && Deregisters(s.calls, e.step)
  }

  /** Only these take an entry, or the membership, away. */
  lemma {:induction false} RegistryStep(p: Params, s: State, e: Event)
    requires Enabled(s, e)
    ensures s.entry.Some? && After(p, s, e).entry.None? ==> e == Expires || Deregistering(s, e)
    ensures s.active && !After(p, s, e).active ==> Deregistering(s, e)
  {
    if e.OfCall? {
      CallStepEffect(p, s, e.step);
    }
  }

  /** Past the publish means its reply came, some time before. */
  lemma {:induction false} ReplyCameBefore(p: Params, r: Run, k: nat) returns (i: nat)
    requires r.Valid(p) && k < |r.states|
    requires r.Calls(k).winner.Some? && r.Calls(k).winner.value in r.Calls(k).calls
    requires PastPublish(First(r.Calls(k)).pc)
    ensures i < k && r.events[i] == OfCall(Returned(r.Calls(k).winner.value))
    ensures r.Calls(i).winner == r.Calls(k).winner && r.Calls(k).winner.value in r.Calls(i).calls
    ensures First(r.Calls(i)).pc == Publishing(true)
  {
    assert k > 0;
    i := k - 1;
    PastOrReply(p, r, i);
    if PastPublish(First(r.Calls(i)).pc) {
      i := ReplyCameBefore(p, r, i);
    }
  }

  lemma {:induction false} PastOrReply(p: Params, r: Run, k: nat)
    requires r.Valid(p) && k < |r.events|
    requires r.Calls(k + 1).winner.Some? && r.Calls(k + 1).winner.value in r.Calls(k + 1).calls
    requires PastPublish(First(r.Calls(k + 1)).pc)
    ensures r.Calls(k).winner == r.Calls(k + 1).winner && r.Calls(k).winner.value in r.Calls(k).calls
    ensures PastPublish(First(r.Calls(k)).pc)
            || (r.events[k] == OfCall(Returned(r.Calls(k).winner.value)) && First(r.Calls(k)).pc == Publishing(true))
  {
    CallsInv(p, r, k);
    assert r.StepAt(p, k);
    EventMovesCalls(p, r.states[k], r.events[k]);
    var step := CallStepOf(p, r.events[k]);
    if step.Some? {
      OnlyReplyPassesPublish(p, r.Calls(k), step.value);
    }
  }

  /** The worker leaves the registry only after its one publish returned, and never when that
      publish was for idle timeout. */
  lemma {:induction false} FirstReasonDecides(p: Params, r: Run, k: nat) returns (i: nat)
    requires r.Valid(p) && k < |r.events|
    requires r.StepAt(p, k) && Deregistering(r.states[k], r.events[k])
    ensures r.Calls(k).winner.Some? && r.Calls(k).winner.value in r.Calls(k).calls
    ensures First(r.Calls(k)).reason != IdleTimeout && r.Calls(k).published == [First(r.Calls(k)).reason]
    ensures i < k && r.events[i] == OfCall(Returned(r.Calls(k).winner.value))
    ensures r.Calls(k).winner.value in r.Calls(i).calls
    ensures r.Calls(i).calls[r.Calls(k).winner.value].pc == Publishing(true)
  {
    CallsInv(p, r, k);
    DeregistersBehindPublish(p, r.Calls(k), r.events[k].step);
    i := ReplyCameBefore(p, r, k);
  }

  /** Once idle timeout passed the guard, the worker stays in the registry: from then on its
      hash goes only by expiring, and it never leaves the active set. */
  lemma {:induction false} IdleTimeoutStaysRegistered(p: Params, r: Run, i: nat, k: nat)
    requires r.Valid(p) && i <= k < |r.events|
    requires r.Calls(i).winner.Some? && r.Calls(i).winner.value in r.Calls(i).calls
    requires First(r.Calls(i)).reason == IdleTimeout
    ensures r.states[k].entry.Some? && r.states[k + 1].entry.None? ==> r.events[k] == Expires
    ensures r.states[k].active ==> r.states[k + 1].active
  {
    CallsInv(p, r, i);
    CallsInv(p, r, k);
    FlagNeverFalls(p, r, i, k);
    assert r.StepAt(p, k);
    RegistryStep(p, r.states[k], r.events[k]);
    if Deregistering(r.states[k], r.events[k]) {
      DeregistersBehindPublish(p, r.Calls(k), r.events[k].step);
    }
  }

  /** Redis applies the command the first call waits for there between the two states. */
  predicate AppliesAt(r: Run, i: nat, w: nat, at: Pc) {
    && i < |r.events| && i < |r.states| && r.events[i] == OfCall(Applied(w))
    && FirstIf(r.Calls(i), w).Some? && FirstIf(r.Calls(i), w).value.pc == at
  }

  predicate NoError(r: Run, k: nat, w: nat) {
    k <= |r.events| && forall i :: 0 <= i < k ==> r.events[i] != OfCall(Raised(w))
  }

  predicate BehindAt(r: Run, k: nat, w: nat, at: Pc)
    requires k < |r.states|
  {
    FirstIf(r.Calls(k), w).Some? && Behind(FirstIf(r.Calls(k), w).value, at)
  }

  lemma {:induction false} BehindOrApplied(p: Params, r: Run, k: nat, w: nat, at: Pc)
    requires r.Valid(p) && k < |r.events| && r.events[k] != OfCall(Raised(w)) && BehindAt(r, k + 1, w, at)
    ensures BehindAt(r, k, w, at) || AppliesAt(r, k, w, at)
  {
    CallsInv(p, r, k);
    assert r.StepAt(p, k);
    EventMovesCalls(p, r.states[k], r.events[k]);
    var step := CallStepOf(p, r.events[k]);
    if step.Some? {
      BehindBy(p, r.Calls(k), step.value, at);
    }
  }

  lemma {:induction false} AppliedBefore(p: Params, r: Run, k: nat, w: nat, at: Pc) returns (i: nat)
    requires r.Valid(p) && k < |r.states| && NoError(r, k, w) && BehindAt(r, k, w, at)
    ensures i < k && AppliesAt(r, i, w, at)
  {
    assert k > 0;
    i := k - 1;
    BehindOrApplied(p, r, i, w, at);
    if BehindAt(r, i, w, at) {
      i := AppliedBefore(p, r, i, w, at);
    }
  }

  /** A first call that completes without an error, and not for idle timeout, has published
      its message, then deleted the hash, then left the active set. */
  lemma {:induction false} CompletedDidEverything(p: Params, r: Run, k: nat, w: nat) returns (h: nat, i: nat, j: nat)
    requires r.Valid(p) && k < |r.states| && NoError(r, k, w)
    requires r.Calls(k).winner == Some(w) && w in r.Calls(k).calls
    requires r.Calls(k).calls[w].pc == Completed && r.Calls(k).calls[w].reason != IdleTimeout
    ensures h < i < j < k && r.events[h] == OfCall(Returned(w)) && r.Calls(h).published == [r.Calls(k).calls[w].reason]
    ensures AppliesAt(r, i, w, Deleting(false)) && AppliesAt(r, j, w, Removing(false))
  {
    j := AppliedBefore(p, r, k, w, Removing(false));
    i := AppliedBefore(p, r, j, w, Deleting(false));
    CallsInv(p, r, i);
    h := ReplyCameBefore(p, r, i);
    CallsInv(p, r, h);
    CallsInv(p, r, k);
    FlagNeverFalls(p, r, h, k);
  }

  // -- What the worker's own tasks may do ----------------------------------------------------------

  /** A call of the monitor is asked to cancel before it can be suspended, and stays so until
      the cancellation reaches it. */
  ghost predicate MonitorCalls(c: Calls, requested: set<nat>) {
    forall id :: id in c.calls && c.calls[id].reason == IdleTimeout ==>
      && !PastPublish(c.calls[id].pc)
      && (c.calls[id].pc.Waiting? || Suspended(c.calls[id].pc) ==> id in requested)
  }

  ghost predicate OwnInv(p: Params, s: State) {
    && (s.calls.signaled ==> s.heartbeat == Absent || s.heartbeat == Cancelled)
    && (!p.lateDelivery ==> s.lateWrites == multiset{})
    && (s.idle == Watching ==> s.idleHandle)
    && MonitorCalls(s.calls, s.requested)
  }

  lemma {:induction false} StepOwnInv(p: Params, s: State, e: Event)
    requires OwnInv(p, s) && Enabled(s, e)
    ensures OwnInv(p, After(p, s, e))
  {
    if e.OfCall? {
      CallStepEffect(p, s, e.step);
      CallStepTasks(p, s, e.step);
      StepKeepsReasons(p, s.calls, e.step);
      CallStepMonitor(p, s, e.step);
    } else {
      OtherStepMonitor(p, s, e);
      OtherStepHeartbeat(p, s, e);
    }
  }

  /** A step of a call lets the monitor's calls be. */
  lemma {:induction false} CallStepMonitor(p: Params, s: State, step: Step)
    requires MonitorCalls(s.calls, s.requested) && MayStep(s.calls, step) && TaskMay(s, step)
    ensures MonitorCalls(CallStep(p, s, step).calls, CallStep(p, s, step).requested)
  {
    var t := CallStep(p, s, step);
    CallStepEffect(p, s, step);
    CallStepTasks(p, s, step);
    StepKeepsReasons(p, s.calls, step);
    forall id | id in t.calls.calls && t.calls.calls[id].reason == IdleTimeout
      ensures !PastPublish(t.calls.calls[id].pc)
      ensures t.calls.calls[id].pc.Waiting? || Suspended(t.calls.calls[id].pc) ==> id in t.requested
    {
      StepMovesOne(p, s.calls, step, id);
      MonitorCallMoves(p, s, step, id);
    }
  }

  /** Asked to cancel, a call of the monitor moves on to its cancellation only. */
  lemma {:induction false} MonitorCallMoves(p: Params, s: State, step: Step, id: nat)
    requires id in s.calls.calls && MayStep(s.calls, step) && TaskMay(s, step)
    requires !PastPublish(s.calls.calls[id].pc)
    requires s.calls.calls[id].pc.Waiting? || Suspended(s.calls.calls[id].pc) ==> id in s.requested
    ensures var pc := PcAfter(p, s.calls, step, id);
            && !PastPublish(pc)
            && (pc.Waiting? || Suspended(pc) ==> id in s.requested && step != CallCancelled(id))
  {
  }

  /** The monitor that fires stops itself first: its handle is still there to do so. */
  lemma {:induction false} FiringAsksItself(p: Params, s: State, id: nat)
    requires Enabled(s, MonitorFires(id)) && s.idleHandle
    ensures id in After(p, s, MonitorFires(id)).requested
  {
  }

  lemma {:induction false} NewCallMonitor(p: Params, c: Calls, requested: set<nat>, id: nat, reason: Reason)
    requires MonitorCalls(c, requested) && MayStep(c, New(id, reason)) && (reason == IdleTimeout ==> id in requested)
    ensures MonitorCalls(AfterStep(p, c, New(id, reason)), requested)
  {
  }

  /** Other events take no request back, and start no second monitor without its handle. */
  lemma {:induction false} OtherStepTasks(p: Params, s: State, e: Event)
    requires Enabled(s, e) && !e.OfCall?
    ensures var t := After(p, s, e);
            && s.requested <= t.requested
            && ((s.idle == Watching ==> s.idleHandle) ==> (t.idle == Watching ==> t.idleHandle))
  {
    if e.MonitorFires? {
      StopIdleTouches(s.(idle := Running(e.id)));
    }
  }

  lemma {:induction false} OtherStepMonitor(p: Params, s: State, e: Event)
    requires OwnInv(p, s) && Enabled(s, e) && !e.OfCall?
    ensures var t := After(p, s, e);
            MonitorCalls(t.calls, t.requested) && t.calls.signaled == s.calls.signaled && (t.idle == Watching ==> t.idleHandle)
  {
    EventMovesCalls(p, s, e);
    OtherStepTasks(p, s, e);
    if e.MonitorFires? {
      FiringAsksItself(p, s, e.id);
    }
    var step := CallStepOf(p, e);
    if step.Some? {
      NewCallMonitor(p, s.calls, After(p, s, e).requested, e.id, step.value.reason);
    }
  }

  lemma {:induction false} OtherStepHeartbeat(p: Params, s: State, e: Event)
    requires OwnInv(p, s) && Enabled(s, e) && !e.OfCall?
    ensures !p.lateDelivery ==> After(p, s, e).lateWrites == multiset{}
    ensures s.heartbeat == Absent || s.heartbeat == Cancelled ==> After(p, s, e).heartbeat == s.heartbeat
  {
  }

  lemma {:induction false} OwnInvHolds(p: Params, r: Run, k: nat)
    requires r.Valid(p) && k < |r.states|
    ensures OwnInv(p, r.states[k])
  {
    if k > 0 {
      OwnInvHolds(p, r, k - 1);
      assert r.StepAt(p, k - 1);
      StepOwnInv(p, r.states[k - 1], r.events[k - 1]);
    }
  }

  /** The monitor's own call never gets behind its publish: the monitor has asked its own
      task to cancel, so the call ends in the cancellation, or in an error, whether or not
      the message went out. */
  lemma {:induction false} IdleCallNeverCompletes(p: Params, r: Run, k: nat, id: nat)
    requires r.Valid(p) && k < |r.states|
    requires id in r.Calls(k).calls && r.Calls(k).calls[id].reason == IdleTimeout
    ensures !PastPublish(r.Calls(k).calls[id].pc)
  {
    OwnInvHolds(p, r, k);
  }

  // -- How the entry comes back ---------------------------------------------------------------------

  /** Behind the flag an entry appears only through the one-shot heartbeat, through boot, or
      as a write the network held back; never through the heartbeat loop or a shutdown call. */
  lemma {:induction false} AppearsOnlyBy(p: Params, r: Run, k: nat)
    requires r.Valid(p) && k < |r.events| && r.Calls(k).signaled
    requires r.states[k].entry.None? && r.states[k + 1].entry.Some?
    ensures r.events[k] == OneShotApplied || r.events[k] == BootApplied
            || (r.events[k].LateWrite? && p.lateDelivery)
  {
    OwnInvHolds(p, r, k);
    assert r.StepAt(p, k);
  }

  predicate SetsExpiry(e: Event) {
    e == OneShotApplied || e == LoopApplied || (e.LateWrite? && e.write.Beat?)
  }

  predicate MarksHealthy(e: Event) {
    e == BootApplied || e == LateWrite(MarkHealthy)
  }

  predicate Endless(s: State) {
    s.entry.Some? && !s.entry.value.ttl
  }

  lemma {:induction false} HeartbeatSetsExpiry(p: Params, s: State, e: Event)
    requires Enabled(s, e) && SetsExpiry(e)
    ensures !Endless(After(p, s, e))
  {
  }

  lemma {:induction false} OthersDoNotWrite(p: Params, s: State, e: Event)
    requires Enabled(s, e) && !e.OfCall? && !SetsExpiry(e) && !MarksHealthy(e)
    ensures After(p, s, e).entry == if e == Expires then None else s.entry
  {
  }

  /** Where an entry without expiry comes from, in one step. */
  lemma {:induction false} EndlessStep(p: Params, s: State, e: Event)
    requires Enabled(s, e) && Endless(After(p, s, e))
    ensures if s.entry.None? then MarksHealthy(e) else Endless(s) && !SetsExpiry(e)
  {
    if e.OfCall? {
      CallStepEffect(p, s, e.step);
    } else if SetsExpiry(e) {
      HeartbeatSetsExpiry(p, s, e);
    } else if !MarksHealthy(e) {
      OthersDoNotWrite(p, s, e);
    }
  }

  /** An entry without expiry was created by `mark_healthy`, and has seen no heartbeat since. */
  lemma {:induction false} EndlessOnlyByBoot(p: Params, r: Run, k: nat) returns (i: nat)
    requires r.Valid(p) && k < |r.states|
    requires Endless(r.states[k])
    ensures i < k && MarksHealthy(r.events[i]) && r.states[i].entry.None?
    ensures forall j :: i < j < k ==> r.states[j].entry.Some? && !SetsExpiry(r.events[j])
  {
    assert k > 0;
    assert r.StepAt(p, k - 1);
    EndlessStep(p, r.states[k - 1], r.events[k - 1]);
    if r.states[k - 1].entry.Some? {
      i := EndlessOnlyByBoot(p, r, k - 1);
    } else {
      i := k - 1;
    }
  }

  /** Nothing is left that could write or delete the entry. */
  predicate Over(p: Params, s: State) {
    && s.calls.winner.Some? && s.calls.winner.value in s.calls.calls
    && First(s.calls).pc == Completed && !p.lateDelivery
    && (s.oneShot == Absent || s.oneShot == Ended)
  }

  lemma {:induction false} OneShotStays(p: Params, s: State, e: Event)
    requires Enabled(s, e) && (s.oneShot == Absent || s.oneShot == Ended)
    ensures After(p, s, e).oneShot == s.oneShot
  {
    if e.OfCall? {
      CallStepEffect(p, s, e.step);
    }
  }

  lemma {:induction false} OverStep(p: Params, s: State, e: Event)
    requires Enabled(s, e) && Inv(p, s.calls) && Over(p, s)
    ensures Over(p, After(p, s, e))
  {
    OneShotStays(p, s, e);
    EventMovesCalls(p, s, e);
    if e.OfCall? {
      CompletedStays(p, s.calls, e.step);
    }
  }

  lemma {:induction false} OverWrites(p: Params, s: State, e: Event)
    requires Enabled(s, e) && Inv(p, s.calls) && OwnInv(p, s) && Over(p, s) && Endless(s)
    ensures Endless(After(p, s, e))
  {
    if e.OfCall? {
      CallStepEffect(p, s, e.step);
      CompletedStays(p, s.calls, e.step);
    }
  }

  lemma {:induction false} OverStays(p: Params, r: Run, i: nat, k: nat)
    requires r.Valid(p) && i <= k < |r.states| && Over(p, r.states[i])
    ensures Over(p, r.states[k])
  {
    if i < k {
      OverStays(p, r, i, k - 1);
      assert r.StepAt(p, k - 1);
      CallsInv(p, r, k - 1);
      OverStep(p, r.states[k - 1], r.events[k - 1]);
    }
  }

  lemma {:induction false} EndlessStaysNext(p: Params, r: Run, k: nat)
    requires r.Valid(p) && k < |r.events| && Over(p, r.states[k]) && Endless(r.states[k])
    ensures Endless(r.states[k + 1])
  {
    assert r.StepAt(p, k);
    CallsInv(p, r, k);
    OwnInvHolds(p, r, k);
    OverWrites(p, r.states[k], r.events[k]);
  }

  /** An entry without expiry that boot leaves behind a completed shutdown stays for ever. */
  lemma {:induction false} EndlessStays(p: Params, r: Run, i: nat, k: nat)
    requires r.Valid(p) && i <= k < |r.states| && Over(p, r.states[i]) && Endless(r.states[i])
    ensures Endless(r.states[k])
  {
    if i < k {
      EndlessStays(p, r, i, k - 1);
      OverStays(p, r, i, k - 1);
      EndlessStaysNext(p, r, k - 1);
    }
  }

  // -- Runs that happen -------------------------------------------------------------------------------

  predicate Ordinary(p: Params) {
    p.enabled && p.idleTimeoutSet && !p.lateDelivery
  }

  /** Some run leads from the one state to the other. */
  ghost predicate Reaches(p: Params, s: State, t: State) {
    exists r: Run :: r.Valid(p) && r.states[0] == s && r.Last() == t
  }

  lemma {:induction false} Stays(p: Params, s: State)
    requires IsInit(p, s)
    ensures Reaches(p, s, s)
  {
    var r := Run([s], []);
    assert r.Valid(p) && r.Last() == s;
  }

  lemma {:induction false} Goes(p: Params, s: State, t: State, e: Event)
    requires Reaches(p, s, t) && Enabled(t, e)
    ensures Reaches(p, s, After(p, t, e))
  {
    var r: Run :| r.Valid(p) && r.states[0] == s && r.Last() == t;
    var u := r.Then(p, e);
    assert u.Valid(p) && u.states[0] == s && u.Last() == After(p, t, e);
  }

  /** A worker that is up, with its one-shot heartbeat still to come. */
  function Up(s: State): State {
    s.(boot := Booted, status := Healthy, entry := Some(Entry(Healthy, s.entry.Some? && s.entry.value.ttl)),
       idle := Watching, idleHandle := true)
  }

  lemma {:induction false} ComesUp(p: Params, s: State)
    requires Ordinary(p) && IsInit(p, s) && s.boot == Downloading
    ensures Reaches(p, s, Up(s))
  {
    Stays(p, s);
    var t := After(p, s, Downloaded);
    Goes(p, s, s, Downloaded);
    var u := After(p, t, Loaded);
    Goes(p, s, t, Loaded);
    var v := After(p, u, BootApplied);
    Goes(p, s, u, BootApplied);
    Goes(p, s, v, BootResumed);
    assert After(p, v, BootResumed) == Up(s);
  }

  /** The worker with one call, the first at the guard, for this reason and at this point. */
  function Single(s: State, reason: Reason, pc: Pc, published: seq<Reason>): State {
    s.(calls := Calls(true, Some(0), map[0 := Call(reason, pc)], published, multiset{}), heartbeat := Cancelled)
  }

  /** The monitor's call cancelled in front of its publish: flag set, nothing published. */
  function LostTimeout(s: State): State {
    Single(Up(s), IdleTimeout, PublishCancelled(false), []).(idle := Running(0), idleHandle := false)
  }

  /** An idle timeout can be lost altogether: the flag is set and nothing is published, from
      where no later shutdown call publishes anything either (`LostForGood`). */
  lemma {:induction false} IdleTimeoutCanBeLost(p: Params, s: State)
    requires Ordinary(p) && IsInit(p, s) && s.boot == Downloading
    ensures Reaches(p, s, LostTimeout(s))
  {
    var t := Fired(s);
    Fires(p, s);
    Goes(p, s, t, OfCall(Guard(0)));
    EntersFirst(p, t, IdleTimeout);
    IsCancelled(p, t);
    Goes(p, s, Single(t, IdleTimeout, Publishing(false), []), OfCall(CallCancelled(0)));
  }

  /** The monitor has fired: its call is there, and its task is asked to cancel. */
  function Fired(s: State): State {
    Up(s).(calls := NO_CALLS.(calls := map[0 := Call(IdleTimeout, Waiting)]),
           idle := Running(0), idleHandle := false, requested := {0})
  }

  lemma {:induction false} Fires(p: Params, s: State)
    requires Ordinary(p) && IsInit(p, s) && s.boot == Downloading
    ensures Reaches(p, s, Fired(s))
  {
    ComesUp(p, s);
    Goes(p, s, Up(s), MonitorFires(0));
    assert After(p, Up(s), MonitorFires(0)) == Fired(s);
  }

  lemma {:induction false} IsCancelled(p: Params, t: State)
    requires Ordinary(p) && t.requested == {0}
    ensures var u := Single(t, IdleTimeout, Publishing(false), []);
            Enabled(u, OfCall(CallCancelled(0)))
            && After(p, u, OfCall(CallCancelled(0))) == Single(t, IdleTimeout, PublishCancelled(false), []).(requested := {})
  {
    var to := PublishCancelled(false);
    assert map[0 := Call(IdleTimeout, Publishing(false))][0 := Call(IdleTimeout, to)] == map[0 := Call(IdleTimeout, to)];
  }

  lemma {:induction false} EntersFirst(p: Params, t: State, reason: Reason)
    requires Ordinary(p) && t.calls == NO_CALLS.(calls := map[0 := Call(reason, Waiting)])
    requires t.heartbeat == Ready && !t.idleHandle
    ensures MayStep(t.calls, Guard(0)) && CallStep(p, t, Guard(0)) == Single(t, reason, Publishing(false), [])
  {
    assert map[0 := Call(reason, Waiting)][0 := Call(reason, Publishing(false))] == map[0 := Call(reason, Publishing(false))];
  }

  /** A step of the single call, to this point, with these messages out. */
  lemma {:induction false} Advances(p: Params, s: State, t: State, step: Step, pc: Pc, to: Pc, before: seq<Reason>, out: seq<Reason>)
    requires Reaches(p, s, Single(t, ShutdownExit, pc, before)) && t.requested == {}
    requires var c := Single(t, ShutdownExit, pc, before).calls;
             && (step == Applied(0) || step == Returned(0)) && MayStep(c, step)
             && AfterStep(p, c, step) == Single(t, ShutdownExit, to, out).calls
    ensures var c := Single(t, ShutdownExit, pc, before).calls;
            var e := Effect(c, step);
            Reaches(p, s, Single(t, ShutdownExit, to, out).(entry := if e == Some(Delete) then None else t.entry,
                                                            active := t.active && e != Some(Remove)))
  {
    Goes(p, s, Single(t, ShutdownExit, pc, before), OfCall(step));
  }

  lemma {:induction false} AppliedStep(p: Params, t: State, pc: Pc, published: seq<Reason>)
    requires pc.Publishing? || pc.Deleting? || pc.Removing?
    requires Pending(0, pc).Some?
    ensures var c := Single(t, ShutdownExit, pc, published).calls;
            && MayStep(c, Applied(0)) && Effect(c, Applied(0)) == Pending(0, pc)
            && AfterStep(p, c, Applied(0)).calls == map[0 := Call(ShutdownExit, AfterApply(pc))]
  {
    assert map[0 := Call(ShutdownExit, pc)][0 := Call(ShutdownExit, AfterApply(pc))] == map[0 := Call(ShutdownExit, AfterApply(pc))];
  }

  lemma {:induction false} ReturnedStep(p: Params, t: State, pc: Pc, published: seq<Reason>)
    requires Suspended(pc) && Pending(0, pc).None?
    ensures var c := Single(t, ShutdownExit, pc, published).calls;
            && MayStep(c, Returned(0)) && Effect(c, Returned(0)) == None
            && AfterStep(p, c, Returned(0)) == Single(t, ShutdownExit, AfterReturn(ShutdownExit, pc), published).calls
  {
    var to := AfterReturn(ShutdownExit, pc);
    assert map[0 := Call(ShutdownExit, pc)][0 := Call(ShutdownExit, to)] == map[0 := Call(ShutdownExit, to)];
  }

  /** A command and its reply. */
  lemma {:induction false} Commands(p: Params, s: State, t: State, pc: Pc, before: seq<Reason>) returns (u: State)
    requires Reaches(p, s, Single(t, ShutdownExit, pc, before)) && t.requested == {}
    requires pc in {Publishing(false), Deleting(false), Removing(false)}
    ensures Reaches(p, s, Single(u, ShutdownExit, AfterReturn(ShutdownExit, AfterApply(pc)),
                                 if pc.Publishing? then before + [ShutdownExit] else before))
    ensures u == t.(entry := if pc.Deleting? then None else t.entry, active := t.active && !pc.Removing?)
  {
    var out := if pc.Publishing? then before + [ShutdownExit] else before;
    AppliedStep(p, t, pc, before);
    Advances(p, s, t, Applied(0), pc, AfterApply(pc), before, out);
    u := t.(entry := if pc.Deleting? then None else t.entry, active := t.active && !pc.Removing?);
    assert Single(t, ShutdownExit, AfterApply(pc), out).(entry := u.entry, active := u.active) == Single(u, ShutdownExit, AfterApply(pc), out);
    ReturnedStep(p, u, AfterApply(pc), out);
    Advances(p, s, u, Returned(0), AfterApply(pc), AfterReturn(ShutdownExit, AfterApply(pc)), out, out);
    assert Single(u, ShutdownExit, AfterReturn(ShutdownExit, AfterApply(pc)), out).(entry := u.entry, active := u.active)
           == Single(u, ShutdownExit, AfterReturn(ShutdownExit, AfterApply(pc)), out);
  }

  /** A shutdown in front of the download that deregistered and completed, around a one-shot
      heartbeat still waiting for Redis. */
  function Exited(s: State): State {
    Single(s, ShutdownExit, Completed, [ShutdownExit]).(oneShot := Sending(Booting, false), entry := None, active := false)
  }

  lemma {:induction false} ExitsDuringBoot(p: Params, s: State)
    requires Ordinary(p) && IsInit(p, s) && s.boot == Downloading
    ensures Reaches(p, s, Exited(s))
  {
    var t := s.(oneShot := Sending(Booting, false));
    ExitsFirst(p, s, t);
    var a := Commands(p, s, t, Publishing(false), []);
    assert [] + [ShutdownExit] == [ShutdownExit];
    var b := Commands(p, s, a, Deleting(false), [ShutdownExit]);
    var d := Commands(p, s, b, Removing(false), [ShutdownExit]);
    Closes(p, s, d);
  }

  lemma {:induction false} ExitsFirst(p: Params, s: State, t: State)
    requires Ordinary(p) && IsInit(p, s) && s.boot == Downloading && t == s.(oneShot := Sending(Booting, false))
    ensures Reaches(p, s, Single(t, ShutdownExit, Publishing(false), []))
  {
    Stays(p, s);
    Goes(p, s, s, OneShotSends);
    var u := t.(calls := NO_CALLS.(calls := map[0 := Call(ShutdownExit, Waiting)]));
    Goes(p, s, t, Exits(0));
    assert After(p, t, Exits(0)) == u;
    EntersFirst(p, u, ShutdownExit);
    Goes(p, s, u, OfCall(Guard(0)));
    assert Single(u, ShutdownExit, Publishing(false), []) == Single(t, ShutdownExit, Publishing(false), []);
  }

  lemma {:induction false} Closes(p: Params, s: State, t: State)
    requires Reaches(p, s, Single(t, ShutdownExit, Closing, [ShutdownExit])) && t.requested == {}
    ensures Reaches(p, s, Single(t, ShutdownExit, Completed, [ShutdownExit]))
  {
    ReturnedStep(p, t, Closing, [ShutdownExit]);
    Advances(p, s, t, Returned(0), Closing, Completed, [ShutdownExit], [ShutdownExit]);
    assert Single(t, ShutdownExit, Completed, [ShutdownExit]).(entry := t.entry, active := t.active)
           == Single(t, ShutdownExit, Completed, [ShutdownExit]);
  }

  /** The same worker once boot has marked it healthy. */
  function Outlived(s: State): State {
    Exited(s).(oneShot := Ended, boot := Marking(true), status := Healthy, entry := Some(Entry(Healthy, false)))
  }

  /** Boot can bring the entry back behind a completed shutdown: marked healthy, outside the
      active set, without expiry, and there to stay (`EndlessStays`). */
  lemma {:induction false} EntryCanOutliveShutdown(p: Params, s: State)
    requires Ordinary(p) && IsInit(p, s) && s.boot == Downloading
    ensures Reaches(p, s, Outlived(s)) && Over(p, Outlived(s)) && Endless(Outlived(s))
  {
    ExitsDuringBoot(p, s);
    var t := After(p, Exited(s), OneShotResumed);
    Goes(p, s, Exited(s), OneShotResumed);
    var u := After(p, t, Downloaded);
    Goes(p, s, t, Downloaded);
    var v := After(p, u, Loaded);
    Goes(p, s, u, Loaded);
    Goes(p, s, v, BootApplied);
    assert After(p, v, BootApplied) == Outlived(s);
  }

  /** So can the one-shot heartbeat, with an expiry. */
  lemma {:induction false} OneShotCanRevive(p: Params, s: State)
    requires Ordinary(p) && IsInit(p, s) && s.boot == Downloading
    ensures Reaches(p, s, Exited(s).(oneShot := Sending(Booting, true), entry := Some(Entry(Booting, true)), active := true))
  {
    ExitsDuringBoot(p, s);
    Goes(p, s, Exited(s), OneShotApplied);
  }
}
