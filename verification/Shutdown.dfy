/** The callers of `graceful_shutdown` among themselves: who gets through the guard, what
    is published, who deregisters.

    One step is what a call does between two awaits, or what Redis does with a command a
    call waits for.  A command is first issued, then applied by Redis, then its reply
    resumes the call; an error or a cancellation may reach the call before or after the
    command is applied.  A command not applied by then is lost, unless lateDelivery lets
    the network deliver it afterwards. */
module Shutdown {
  import opened Options

  datatype Reason = IdleTimeout | ShutdownExit | Unhealthy

  /** Where a call stands. */
  datatype Pc =
    | Waiting                            // the guard is still ahead
    | Skipping                           // not the first: closing Redis
    | Skipped
    | Unsent                             // the first, with the heartbeat disabled
    | Publishing(delivered: bool)
    | PublishFailed(delivered: bool)
    | PublishCancelled(delivered: bool)
    | Deleting(applied: bool)
    | Removing(applied: bool)
    | Closing
    | Completed
    | Halted                             // stopped behind the publish

  datatype Call = Call(reason: Reason, pc: Pc)

  datatype Command = Publish(id: nat) | Delete | Remove

  datatype Params = Params(enabled: bool, idleTimeoutSet: bool, lateDelivery: bool)

  datatype Calls = Calls(
    signaled: bool,
    winner: Option<nat>,
    calls: map<nat, Call>,
    published: seq<Reason>,
    late: multiset<Command>)

  datatype Step =
    | New(id: nat, reason: Reason)
    | Guard(id: nat)
    | Applied(id: nat)
    | Returned(id: nat)
    | Raised(id: nat)
    | CallCancelled(id: nat)
    | Delivered(command: Command)

  const NO_CALLS := Calls(false, None, map[], [], multiset{})

  predicate Suspended(pc: Pc) {
    pc.Skipping? || pc.Publishing? || pc.Deleting? || pc.Removing? || pc.Closing?
  }

  /** The command a call waits for, while Redis has not applied it. */
  function Pending(id: nat, pc: Pc): Option<Command> {
    match pc
    case Publishing(false) => Some(Publish(id))
    case Deleting(false) => Some(Delete)
    case Removing(false) => Some(Remove)
    case _ => None
  }

  function AfterApply(pc: Pc): Pc {
    match pc
    case Publishing(_) => Publishing(true)
    case PublishFailed(_) => PublishFailed(true)
    case PublishCancelled(_) => PublishCancelled(true)
    case Deleting(_) => Deleting(true)
    case Removing(_) => Removing(true)
    case _ => pc
  }

  /** Behind a reply. */
  function AfterReturn(reason: Reason, pc: Pc): Pc {
    match pc
    case Publishing(_) => if reason == IdleTimeout then Completed else Deleting(false)
    case Deleting(_) => Removing(false)
    case Removing(_) => Closing
    case Closing => Completed
    case Skipping => Skipped
    case _ => pc
  }

  /** Behind an error: the publish passes it on, deregistering swallows it. */
  function AfterRaise(pc: Pc): Pc {
    match pc
    case Publishing(d) => PublishFailed(d)
    case Deleting(_) => Closing
    case Removing(_) => Closing
    case Closing => Halted
    case Skipping => Skipped
    case _ => pc
  }

  function AfterCancel(pc: Pc): Pc {
    match pc
    case Publishing(d) => PublishCancelled(d)
    case Skipping => Skipped
    case _ => Halted
  }

  predicate MayStep(c: Calls, e: Step) {
    match e
    case New(id, _) => id !in c.calls
    case Guard(id) => id in c.calls && c.calls[id].pc == Waiting
    case Applied(id) => id in c.calls && Pending(id, c.calls[id].pc).Some?
    case Returned(id) =>
      id in c.calls && Suspended(c.calls[id].pc) && Pending(id, c.calls[id].pc).None?
    case Raised(id) => id in c.calls && Suspended(c.calls[id].pc)
    case CallCancelled(id) => id in c.calls && Suspended(c.calls[id].pc)
    case Delivered(command) => command in c.late
  }

  function SetPc(c: Calls, id: nat, pc: Pc): Calls
    requires id in c.calls
  {
    c.(calls := c.calls[id := c.calls[id].(pc := pc)])
  }

  /** A command given up before it was applied may still arrive, or not. */
  function GiveUp(p: Params, c: Calls, id: nat): Calls
    requires id in c.calls
  {
    var command := Pending(id, c.calls[id].pc);
    if command.Some? && p.lateDelivery then c.(late := c.late + multiset{command.value}) else c
  }

  /** Redis hands a message to its subscribers. */
  function Tell(c: Calls, command: Command): Calls {
    if command.Publish? && command.id in c.calls
    then SetPc(c, command.id, AfterApply(c.calls[command.id].pc))
         .(published := c.published + [c.calls[command.id].reason])
    else c
  }

  function PassGuard(p: Params, c: Calls, id: nat): Calls
    requires id in c.calls
  {
    if c.signaled then SetPc(c, id, Skipping)
    else SetPc(c, id, if p.enabled then Publishing(false) else Unsent).(signaled := true, winner := Some(id))
  }

  function AfterStep(p: Params, c: Calls, e: Step): Calls
    requires MayStep(c, e)
  {
    match e
    case New(id, reason) => c.(calls := c.calls[id := Call(reason, Waiting)])
    case Guard(id) => PassGuard(p, c, id)
    case Applied(id) =>
      var pc := c.calls[id].pc;
      if pc.Publishing? then Tell(c, Publish(id)) else SetPc(c, id, AfterApply(pc))
    case Returned(id) => SetPc(c, id, AfterReturn(c.calls[id].reason, c.calls[id].pc))
    case Raised(id) => SetPc(GiveUp(p, c, id), id, AfterRaise(c.calls[id].pc))
    case CallCancelled(id) => SetPc(GiveUp(p, c, id), id, AfterCancel(c.calls[id].pc))
    case Delivered(command) => Tell(c.(late := c.late - multiset{command}), command)
  }

  // -- The invariant ---------------------------------------------------------------------

  /** The call was the first at the guard. */
  predicate IsFirst(pc: Pc) {
    !pc.Waiting? && !pc.Skipping? && !pc.Skipped?
  }

  /** The publish of the call has been applied. */
  predicate Told(pc: Pc) {
    match pc
    case Publishing(d) => d
    case PublishFailed(d) => d
    case PublishCancelled(d) => d
    case Unsent => false
    case _ => true
  }

  /** The call is past a publish that returned. */
  predicate PastPublish(pc: Pc) {
    pc.Deleting? || pc.Removing? || pc.Closing? || pc.Completed? || pc.Halted?
  }

  predicate Lost(pc: Pc) {
    pc == PublishFailed(false) || pc == PublishCancelled(false)
  }

  function First(c: Calls): Call
    requires c.winner.Some? && c.winner.value in c.calls
  {
    c.calls[c.winner.value]
  }

  ghost predicate OneWinner(c: Calls) {
    && (c.signaled <==> c.winner.Some?)
    && (c.winner.Some? ==> c.winner.value in c.calls)
    && (forall id :: id in c.calls ==> (IsFirst(c.calls[id].pc) <==> c.winner == Some(id)))
  }

  /** The messages published are the first call's, and one at most. */
  predicate PublishedByWinner(c: Calls) {
    if c.winner.Some? && c.winner.value in c.calls && Told(First(c).pc)
    then c.published == [First(c).reason] else c.published == []
  }

  /** Only a first call that is not for idle timeout deregisters. */
  predicate DeregistersForGood(c: Calls) {
    c.winner.Some? && c.winner.value in c.calls ==>
      && (First(c).pc.Deleting? || First(c).pc.Removing? || First(c).pc.Closing? || First(c).pc.Halted? ==>
            First(c).reason != IdleTimeout)
  }

  /** What is attempted: nothing, exactly when the heartbeat is disabled. */
  predicate AttemptsWhenEnabled(p: Params, c: Calls) {
    c.winner.Some? && c.winner.value in c.calls ==> (First(c).pc == Unsent <==> !p.enabled)
  }

  ghost predicate LateInOrder(p: Params, c: Calls) {
    && (!p.lateDelivery ==> c.late == multiset{})
    && (Delete in c.late || Remove in c.late ==>
          c.winner.Some? && c.winner.value in c.calls && PastPublish(First(c).pc) && First(c).reason != IdleTimeout)
    && (forall id :: Publish(id) in c.late ==>
          c.late[Publish(id)] == 1 && c.winner == Some(id) && id in c.calls && Lost(c.calls[id].pc))
  }

  ghost predicate Inv(p: Params, c: Calls) {
    && OneWinner(c) && PublishedByWinner(c) && DeregistersForGood(c)
    && AttemptsWhenEnabled(p, c) && LateInOrder(p, c)
  }

  lemma {:induction false} GuardInv(p: Params, c: Calls, id: nat)
    requires Inv(p, c) && MayStep(c, Guard(id))
    ensures Inv(p, PassGuard(p, c, id))
  {
    if !c.signaled {
      FirstGuardInv(p, c, id);
    }
  }

  lemma {:induction false} FirstGuardInv(p: Params, c: Calls, id: nat)
    requires Inv(p, c) && MayStep(c, Guard(id)) && !c.signaled
    ensures Inv(p, PassGuard(p, c, id))
  {
    var d := PassGuard(p, c, id);
    assert First(d).reason == c.calls[id].reason;
    assert c.published == [];
  }

  /** A suspended call moves on, within the guarantees of where it stood. */
  lemma {:induction false} MoveInv(p: Params, c: Calls, id: nat, pc: Pc)
    requires Inv(p, c) && id in c.calls && Suspended(c.calls[id].pc)
    requires IsFirst(pc) <==> IsFirst(c.calls[id].pc)
    requires pc != Unsent && !pc.Waiting? && (IsFirst(pc) ==> (Told(pc) <==> Told(c.calls[id].pc)))
    requires pc.Deleting? || pc.Removing? || pc.Closing? || pc.Halted? ==> c.calls[id].reason != IdleTimeout
    requires PastPublish(c.calls[id].pc) ==> PastPublish(pc)
    ensures Inv(p, SetPc(c, id, pc))
  {
  }

  /** A command given up joins the late ones. */
  lemma {:induction false} LateInv(p: Params, c: Calls, id: nat, command: Command)
    requires Inv(p, c) && p.lateDelivery && c.winner == Some(id) && id in c.calls
    requires command.Publish? ==> command == Publish(id) && Lost(c.calls[id].pc) && command !in c.late
    requires !command.Publish? ==> PastPublish(c.calls[id].pc) && c.calls[id].reason != IdleTimeout
    ensures Inv(p, c.(late := c.late + multiset{command}))
  {
  }

  lemma {:induction false} AppliedInv(p: Params, c: Calls, id: nat)
    requires Inv(p, c) && MayStep(c, Applied(id))
    ensures Inv(p, AfterStep(p, c, Applied(id)))
  {
    if !c.calls[id].pc.Publishing? {
      MoveInv(p, c, id, AfterApply(c.calls[id].pc));
    }
  }

  lemma {:induction false} ReturnedInv(p: Params, c: Calls, id: nat)
    requires Inv(p, c) && MayStep(c, Returned(id))
    ensures Inv(p, AfterStep(p, c, Returned(id)))
  {
    MoveInv(p, c, id, AfterReturn(c.calls[id].reason, c.calls[id].pc));
  }

  /** An error or a cancellation: the command waited for is given up, the call moves on. */
  lemma {:induction false} GiveUpInv(p: Params, c: Calls, id: nat, pc: Pc)
    requires Inv(p, c) && id in c.calls && Suspended(c.calls[id].pc)
    requires pc == AfterRaise(c.calls[id].pc) || pc == AfterCancel(c.calls[id].pc)
    ensures Inv(p, SetPc(GiveUp(p, c, id), id, pc))
  {
    var d := SetPc(c, id, pc);
    MoveInv(p, c, id, pc);
    var command := Pending(id, c.calls[id].pc);
    if command.Some? && p.lateDelivery {
      LateInv(p, d, id, command.value);
      assert SetPc(GiveUp(p, c, id), id, pc) == d.(late := d.late + multiset{command.value});
    }
  }

  lemma {:induction false} DeliveredInv(p: Params, c: Calls, command: Command)
    requires Inv(p, c) && MayStep(c, Delivered(command))
    ensures Inv(p, AfterStep(p, c, Delivered(command)))
  {
    if command.Publish? {
      LatePublishInv(p, c, command.id);
    }
  }

  lemma {:induction false} LatePublishInv(p: Params, c: Calls, id: nat)
    requires Inv(p, c) && Publish(id) in c.late
    ensures Inv(p, AfterStep(p, c, Delivered(Publish(id))))
  {
    assert c.winner == Some(id) && Lost(c.calls[id].pc);
  }

  lemma {:induction false} StepInv(p: Params, c: Calls, e: Step)
    requires Inv(p, c) && MayStep(c, e)
    ensures Inv(p, AfterStep(p, c, e))
  {
    match e
    case New(_, _) =>
    case Guard(id) => GuardInv(p, c, id);
    case Applied(id) => AppliedInv(p, c, id);
    case Returned(id) => ReturnedInv(p, c, id);
    case Raised(id) => GiveUpInv(p, c, id, AfterRaise(c.calls[id].pc));
    case CallCancelled(id) => GiveUpInv(p, c, id, AfterCancel(c.calls[id].pc));
    case Delivered(command) => DeliveredInv(p, c, command);
  }

  // -- What no step takes back -------------------------------------------------------------

  /** Where a step leaves one call. */
  function PcAfter(p: Params, c: Calls, e: Step, id: nat): Pc
    requires id in c.calls && MayStep(c, e)
  {
    var pc := c.calls[id].pc;
    match e
    case New(_, _) => pc
    case Guard(i) => if i != id then pc else if c.signaled then Skipping else if p.enabled then Publishing(false) else Unsent
    case Applied(i) => if i == id then AfterApply(pc) else pc
    case Returned(i) => if i == id then AfterReturn(c.calls[id].reason, pc) else pc
    case Raised(i) => if i == id then AfterRaise(pc) else pc
    case CallCancelled(i) => if i == id then AfterCancel(pc) else pc
    case Delivered(command) => if command == Publish(id) then AfterApply(pc) else pc
  }

  lemma {:induction false} StepMovesOne(p: Params, c: Calls, e: Step, id: nat)
    requires id in c.calls && MayStep(c, e)
    ensures id in AfterStep(p, c, e).calls
    ensures AfterStep(p, c, e).calls[id] == c.calls[id].(pc := PcAfter(p, c, e, id))
  {
    if e.Raised? || e.CallCancelled? {
      GivingUpMovesOne(p, c, e, id);
    } else if e.Applied? || e.Delivered? {
      TellingMovesOne(p, c, e, id);
    }
  }

  lemma {:induction false} GivingUpMovesOne(p: Params, c: Calls, e: Step, id: nat)
    requires id in c.calls && MayStep(c, e) && (e.Raised? || e.CallCancelled?)
    ensures id in AfterStep(p, c, e).calls
    ensures AfterStep(p, c, e).calls[id] == c.calls[id].(pc := PcAfter(p, c, e, id))
  {
    assert GiveUp(p, c, e.id).calls == c.calls;
  }

  lemma {:induction false} TellingMovesOne(p: Params, c: Calls, e: Step, id: nat)
    requires id in c.calls && MayStep(c, e) && (e.Applied? || e.Delivered?)
    ensures id in AfterStep(p, c, e).calls
    ensures AfterStep(p, c, e).calls[id] == c.calls[id].(pc := PcAfter(p, c, e, id))
  {
  }

  lemma {:induction false} StepSetsFlag(p: Params, c: Calls, e: Step)
    requires MayStep(c, e)
    ensures var d := AfterStep(p, c, e);
            if e.Guard? && !c.signaled then d.signaled && d.winner == Some(e.id)
            else d.signaled == c.signaled && d.winner == c.winner
  {
  }

  /** The flag stays set and the first call stays the first. */
  lemma {:induction false} StepKeepsWinner(p: Params, c: Calls, e: Step)
    requires OneWinner(c) && MayStep(c, e) && c.signaled
    ensures AfterStep(p, c, e).signaled && AfterStep(p, c, e).winner == c.winner
    ensures c.winner.value in AfterStep(p, c, e).calls && First(AfterStep(p, c, e)).reason == First(c).reason
  {
    StepSetsFlag(p, c, e);
    StepMovesOne(p, c, e, c.winner.value);
  }

  /** A call whose publish was lost stays as it is, unless the network still holds it. */
  lemma {:induction false} StepKeepsLoss(p: Params, c: Calls, e: Step)
    requires Inv(p, c) && MayStep(c, e)
    requires c.winner.Some? && Lost(First(c).pc) && Publish(c.winner.value) !in c.late
    ensures var d := AfterStep(p, c, e);
            && d.winner == c.winner && d.winner.value in d.calls && First(d) == First(c)
            && Publish(d.winner.value) !in d.late
  {
    var w := c.winner.value;
    StepSetsFlag(p, c, e);
    StepMovesOne(p, c, e, w);
    StepAddsOwn(p, c, e, Publish(w));
  }

  /** Only the call itself can leave its publish to the network. */
  lemma {:induction false} StepAddsOwn(p: Params, c: Calls, e: Step, command: Command)
    requires MayStep(c, e) && command.Publish? && command !in c.late
    ensures command in AfterStep(p, c, e).late ==>
              (e.Raised? || e.CallCancelled?) && e.id == command.id && c.calls[e.id].pc == Publishing(false)
  {
  }

  ghost predicate SameReasons(c: Calls, d: Calls) {
    && (forall id :: id in d.calls ==> id in c.calls)
    && (forall id :: id in c.calls ==>
          id in d.calls && d.calls[id].reason == c.calls[id].reason)
  }

  lemma {:induction false} SetPcKeepsReasons(c: Calls, id: nat, pc: Pc)
    requires id in c.calls
    ensures SameReasons(c, SetPc(c, id, pc)) && SetPc(c, id, pc).signaled == c.signaled
  {
  }

  /** No step changes the reason of a call, and only the guard sets the flag. */
  lemma {:induction false} StepKeepsReasons(p: Params, c: Calls, e: Step)
    requires MayStep(c, e) && !e.New?
    ensures SameReasons(c, AfterStep(p, c, e))
    ensures AfterStep(p, c, e).signaled == (c.signaled || e.Guard?)
  {
    var d := AfterStep(p, c, e);
    if e.Delivered? && !(e.command.Publish? && e.command.id in c.calls) {
      assert d.calls == c.calls;
    } else {
      var id := if e.Delivered? then e.command.id else e.id;
      SetPcKeepsReasons(c, id, d.calls[id].pc);
      assert d.calls == SetPc(c, id, d.calls[id].pc).calls;
    }
  }

  /** The command Redis applies in this step. */
  function Effect(c: Calls, e: Step): Option<Command>
    requires MayStep(c, e)
  {
    match e
    case Applied(id) => Pending(id, c.calls[id].pc)
    case Delivered(command) => Some(command)
    case _ => None
  }

  predicate Deregisters(c: Calls, e: Step)
    requires MayStep(c, e)
  {
    Effect(c, e) == Some(Delete) || Effect(c, e) == Some(Remove)
  }

  /** Only a first call that is not for idle timeout takes the worker out of the registry,
      and only behind its publish. */
  lemma {:induction false} DeregistersBehindPublish(p: Params, c: Calls, e: Step)
    requires Inv(p, c) && MayStep(c, e) && Deregisters(c, e)
    ensures c.winner.Some? && PastPublish(First(c).pc) && First(c).reason != IdleTimeout
    ensures c.published == [First(c).reason]
  {
  }

  /** The way behind the publish is its own reply. */
  lemma {:induction false} OnlyReplyPassesPublish(p: Params, c: Calls, e: Step)
    requires Inv(p, c) && MayStep(c, e)
    ensures var d := AfterStep(p, c, e);
            d.winner.Some? && d.winner.value in d.calls && PastPublish(First(d).pc) ==>
              && c.winner == d.winner
              && (PastPublish(First(c).pc) || (e == Returned(c.winner.value) && First(c).pc == Publishing(true)))
  {
    StepSetsFlag(p, c, e);
    var d := AfterStep(p, c, e);
    if d.winner.Some? {
      StepMovesOne(p, c, e, d.winner.value);
    }
  }

  /** Behind a completed call that passed the guard, no step deletes anything. */
  lemma {:induction false} CompletedStays(p: Params, c: Calls, e: Step)
    requires Inv(p, c) && MayStep(c, e) && !e.New? && !p.lateDelivery
    requires c.winner.Some? && First(c).pc == Completed
    ensures AfterStep(p, c, e).winner == c.winner && c.winner.value in AfterStep(p, c, e).calls
    ensures First(AfterStep(p, c, e)).pc == Completed
    ensures !Deregisters(c, e)
  {
  }

  // -- Both commands of `deregister`, in order ----------------------------------------------

  /** Behind the deletion of the hash, unless an error came in between. */
  predicate Deleted(call: Call) {
    call.pc == Deleting(true) || call.pc.Removing? || call.pc.Closing? || (call.pc.Completed? && call.reason != IdleTimeout)
  }

  /** Behind the removal from the active set, unless an error came in between. */
  predicate Left(call: Call) {
    call.pc == Removing(true) || call.pc.Closing? || (call.pc.Completed? && call.reason != IdleTimeout)
  }

  /** The command the first call waits for there has been applied. */
  predicate Behind(call: Call, at: Pc) {
    (at == Deleting(false) && Deleted(call)) || (at == Removing(false) && Left(call))
  }

  /** Behind a command comes a call only by that command, or an error. */
  lemma {:induction false} BehindBy(p: Params, c: Calls, e: Step, at: Pc)
    requires Inv(p, c) && MayStep(c, e)
    ensures var d := AfterStep(p, c, e);
            d.winner.Some? && d.winner.value in d.calls && Behind(First(d), at) && e != Raised(d.winner.value) ==>
              c.winner == d.winner && (Behind(First(c), at) || (e == Applied(c.winner.value) && First(c).pc == at))
  {
    StepSetsFlag(p, c, e);
    var d := AfterStep(p, c, e);
    if d.winner.Some? {
      StepMovesOne(p, c, e, d.winner.value);
    }
  }
}
