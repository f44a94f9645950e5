/** Load accounting and the idle monitor, over all interleavings of requests and over time.

    The module globals of the tracker are a class; what its operations do to them is a
    function on values, which the runs below are made of. */
module Load {
  const CHECK_INTERVAL := 60.0

  datatype Tracker = Tracker(load: int, lastActivity: real)

  function Opened(t: Tracker, now: real): Tracker {
    Tracker(t.load + 1, now)
  }

  function Released(t: Tracker, now: real): Tracker {
    Tracker(if t.load - 1 < 0 then 0 else t.load - 1, now)
  }

  /** The check the monitor makes when it wakes. */
  predicate IdleAt(t: Tracker, now: real, timeout: real) {
    t.load == 0 && now - t.lastActivity >= timeout
  }

  class LoadTracker {
    var currentLoad: int
    var lastActivity: real

    function Value(): Tracker
      reads this
    {
      Tracker(currentLoad, lastActivity)
    }

    constructor (now: real)
      ensures Value() == Tracker(0, now)
    {
      currentLoad, lastActivity := 0, now;
    }

    method IncrementLoad(now: real)
      modifies this
      ensures Value() == Opened(old(Value()), now)
    {
      currentLoad := currentLoad + 1;
      lastActivity := now;
    }

    method DecrementLoad(now: real)
      modifies this
      ensures Value() == Released(old(Value()), now)
    {
      currentLoad := currentLoad - 1;
      if currentLoad < 0 {
        currentLoad := 0;
      }
      lastActivity := now;
    }

    method TouchActivity(now: real)
      modifies this`lastActivity
      ensures Value() == old(Value()).(lastActivity := now)
    {
      lastActivity := now;
    }

    /** What `_handle_openai` does before it calls the engine. */
    method OpenRequest(now: real)
      modifies this
      ensures Value() == Opened(old(Value()), now)
      ensures forall p: Params, s: State, id :: s.tracker == old(Value()) && Enabled(p, s, OpenPlain(id), now) ==>
                Value() == After(p, s, OpenPlain(id), now).tracker == After(p, s, OpenStream(id), now).tracker
    {
      IncrementLoad(now);
      TouchActivity(now);
    }

    /** How `_handle_openai` leaves a request without streaming: by `finally`, and again by
        `except` when an exception escapes the handler. */
    method LeavePlain(escaped: bool, now: real)
      modifies this
      ensures forall p: Params, s: State, id :: s.tracker == old(Value()) && Enabled(p, s, Escape(id), now) ==>
                Value() == After(p, s, if escaped then Escape(id) else Close(id), now).tracker
      ensures !escaped && old(currentLoad) >= 1 ==> currentLoad == old(currentLoad) - 1
      ensures escaped && old(currentLoad) >= 1 ==> currentLoad == if old(currentLoad) == 1 then 0 else old(currentLoad) - 2
    {
      DecrementLoad(now);
      if escaped {
        DecrementLoad(now);
      }
    }

    method MonitorCheck(now: real, timeout: real) returns (fire: bool)
      ensures fire == IdleAt(Value(), now, timeout)
      ensures forall p: Params, s: State :: s.tracker == Value() && p.timeout == timeout && Enabled(p, s, Wake, now) ==>
                (fire <==> After(p, s, Wake, now).monitor == Fired(now))
    {
      var idleTime := now - lastActivity;
      fire := currentLoad == 0 && idleTime >= timeout;
    }
  }

  // -- Runs --------------------------------------------------------------------------

  /** Where a request stands.  A stream counts from the moment its response is made, but
      only its running generator gives the count back. */
  datatype Phase = Plain | Unstarted | Running | Abandoned

  datatype Monitor = Off | Sleeping(start: real, checked: real) | Fired(at: real)

  datatype Event =
    | OpenPlain(id: nat)
    | OpenStream(id: nat)
    | Start(id: nat)      // the generator of a stream is entered
    | Close(id: nat)      // a plain request returns or is cancelled, or a running generator ends
    | Abandon(id: nat)    // the generator of a stream is never entered
    | Escape(id: nat)     // an exception escapes the handler of a plain request
    | StartMonitor
    | Wake

  /** timeout is IDLE_TIMEOUT_S; a sleep of 60 seconds ends at most jitter seconds late. */
  datatype Params = Params(timeout: real, jitter: real)

  datatype State = State(tracker: Tracker, open: map<nat, Phase>, monitor: Monitor, now: real)

  predicate Valid(p: Params) {
    p.timeout >= 0.0 && p.jitter >= 0.0
  }

  predicate IsInit(s: State) {
    s.tracker.load == 0 && s.tracker.lastActivity <= s.now && s.open == map[] && s.monitor == Off
  }

  /** Time does not run past the moment a sleeping monitor must have woken. */
  predicate InTime(p: Params, s: State, t: real) {
    s.now <= t && (s.monitor.Sleeping? ==> t <= s.monitor.checked + CHECK_INTERVAL + p.jitter)
  }

  predicate Enabled(p: Params, s: State, e: Event, t: real) {
    && InTime(p, s, t)
    && match e
       case OpenPlain(id) => id !in s.open
       case OpenStream(id) => id !in s.open
       case Start(id) => id in s.open && s.open[id] == Unstarted
       case Close(id) => id in s.open && (s.open[id] == Plain || s.open[id] == Running)
       case Abandon(id) => id in s.open && s.open[id] == Unstarted
       case Escape(id) => id in s.open && s.open[id] == Plain
       case StartMonitor => s.monitor == Off && p.timeout != 0.0
       case Wake => s.monitor.Sleeping? && s.monitor.checked + CHECK_INTERVAL <= t
  }

  function After(p: Params, s: State, e: Event, t: real): State
    requires Enabled(p, s, e, t)
  {
    match e
    case OpenPlain(id) => s.(tracker := Opened(s.tracker, t), open := s.open[id := Plain], now := t)
    case OpenStream(id) => s.(tracker := Opened(s.tracker, t), open := s.open[id := Unstarted], now := t)
    case Start(id) => s.(open := s.open[id := Running], now := t)
    case Close(id) => s.(tracker := Released(s.tracker, t), open := s.open - {id}, now := t)
    case Abandon(id) => s.(open := s.open[id := Abandoned], now := t)
    case Escape(id) => s.(tracker := Released(Released(s.tracker, t), t), open := s.open - {id}, now := t)
    case StartMonitor => s.(monitor := Sleeping(t, t), now := t)
    case Wake =>
      s.(monitor := if IdleAt(s.tracker, t, p.timeout) then Fired(t) else Sleeping(s.monitor.start, t), now := t)
  }

  /** A run: the states, and the event and its time between each two. */
  datatype Run = Run(states: seq<State>, events: seq<Event>, times: seq<real>) {
    ghost predicate Valid(p: Params) {
      && |states| == |events| + 1 && |times| == |events|
      && IsInit(states[0])
      && forall i :: 0 <= i < |events| ==> StepAt(p, i)
    }

    ghost predicate StepAt(p: Params, i: nat)
      requires |states| == |events| + 1 && |times| == |events| && i < |events|
    {
      Enabled(p, states[i], events[i], times[i]) && states[i + 1] == After(p, states[i], events[i], times[i])
    }

    /** No exception escapes the handler of a plain request. */
    predicate NoEscape() {
      forall i :: 0 <= i < |events| ==> !events[i].Escape?
    }
  }

  // -- Accounting ----------------------------------------------------------------------

  predicate Exact(s: State) {
    s.tracker.load == |s.open|
  }

  lemma {:induction false} OpenCounts(m: map<nat, Phase>, id: nat, phase: Phase)
    ensures |m[id := phase]| == if id in m then |m| else |m| + 1
    ensures id in m ==> |m - {id}| == |m| - 1 && |m| >= 1
  {
    assert m[id := phase].Keys == m.Keys + {id};
    assert id in m ==> (m - {id}).Keys == m.Keys - {id};
  }

  lemma {:induction false} ExactStep(p: Params, s: State, e: Event, t: real)
    requires Enabled(p, s, e, t) && Exact(s) && !e.Escape?
    ensures Exact(After(p, s, e, t))
    ensures e.Close? ==> s.tracker.load >= 1
  {
    if e.OpenPlain? || e.OpenStream? || e.Start? || e.Close? || e.Abandon? {
      OpenCounts(s.open, e.id, Plain);
      OpenCounts(s.open, e.id, Unstarted);
      OpenCounts(s.open, e.id, Running);
      OpenCounts(s.open, e.id, Abandoned);
    }
  }

  /** The counter is the number of requests opened and not closed, and the clamp at zero is
      never what keeps it there, as long as no exception escapes. */
  lemma {:induction false} LoadIsExact(p: Params, r: Run, k: nat)
    requires r.Valid(p) && r.NoEscape() && k < |r.states|
    ensures Exact(r.states[k])
    ensures k < |r.events| && r.events[k].Close? ==> r.states[k].tracker.load >= 1
  {
    if k > 0 {
      LoadIsExact(p, r, k - 1);
      assert r.StepAt(p, k - 1);
      ExactStep(p, r.states[k - 1], r.events[k - 1], r.times[k - 1]);
    } else {
      assert r.states[0].open.Keys == {};
    }
    if k < |r.events| {
      assert r.StepAt(p, k);
      ExactStep(p, r.states[k], r.events[k], r.times[k]);
    }
  }

  /** An exception that escapes leaves the count right exactly when no other request is
      open: only then does the clamp undo the second decrement. */
  lemma {:induction false} EscapeKeepsCountIffAlone(p: Params, s: State, id: nat, t: real)
    requires Enabled(p, s, Escape(id), t) && Exact(s)
    ensures Exact(After(p, s, Escape(id), t)) <==> s.open.Keys == {id}
  {
    OpenCounts(s.open, id, Plain);
    if |s.open| == 1 {
      assert |s.open.Keys - {id}| == 0;
      assert s.open.Keys == {id};
    } else {
      assert s.open.Keys == {id} ==> |s.open.Keys| == 1;
    }
  }

  lemma {:induction false} BoundStep(p: Params, s: State, e: Event, t: real)
    requires Enabled(p, s, e, t) && 0 <= s.tracker.load <= |s.open|
    ensures 0 <= After(p, s, e, t).tracker.load <= |After(p, s, e, t).open|
  {
    match e
    case OpenPlain(id) => OpenCounts(s.open, id, Plain);
    case OpenStream(id) => OpenCounts(s.open, id, Unstarted);
    case Start(id) => OpenCounts(s.open, id, Running);
    case Close(id) => OpenCounts(s.open, id, Plain);
    case Abandon(id) => OpenCounts(s.open, id, Abandoned);
    case Escape(id) => OpenCounts(s.open, id, Plain);
    case StartMonitor =>
    case Wake =>
  }

  /** Whatever happens, the counter never exceeds the number of open requests. */
  lemma {:induction false} LoadNeverExceedsOpen(p: Params, r: Run, k: nat)
    requires r.Valid(p) && k < |r.states|
    ensures 0 <= r.states[k].tracker.load <= |r.states[k].open|
  {
    if k > 0 {
      LoadNeverExceedsOpen(p, r, k - 1);
      assert r.StepAt(p, k - 1);
      BoundStep(p, r.states[k - 1], r.events[k - 1], r.times[k - 1]);
    }
  }

  // -- Idle safety -----------------------------------------------------------------------

  predicate IsActivity(e: Event) {
    e.OpenPlain? || e.OpenStream? || e.Close? || e.Escape?
  }

  lemma {:induction false} ActivityIsRemembered(p: Params, r: Run, i: nat, k: nat)
    requires r.Valid(p) && i <= k < |r.states|
    ensures r.states[i].now <= r.states[k].now
    ensures r.states[i].tracker.lastActivity <= r.states[k].tracker.lastActivity <= r.states[k].now
    decreases k
  {
    if i < k {
      ActivityIsRemembered(p, r, i, k - 1);
      assert r.StepAt(p, k - 1);
    } else if k > 0 {
      ActivityIsRemembered(p, r, k - 1, k - 1);
      assert r.StepAt(p, k - 1);
    }
  }

  /** Without activity, the same requests stay open. */
  lemma {:induction false} QuietKeepsOpen(p: Params, r: Run, j: nat, k: nat)
    requires r.Valid(p) && j <= k < |r.states|
    requires forall i :: j <= i < k ==> !IsActivity(r.events[i])
    ensures r.states[j].open.Keys == r.states[k].open.Keys
    decreases k
  {
    if j < k {
      QuietKeepsOpen(p, r, j, k - 1);
      assert r.StepAt(p, k - 1);
    }
  }

  /** If the monitor fires at time t, no request was open at any instant later than
      t - timeout: every state that lasted beyond that instant has no open request. */
  lemma {:induction false} IdleIsSafe(p: Params, r: Run, k: nat, j: nat)
    requires r.Valid(p) && r.NoEscape()
    requires k < |r.events| && r.states[k + 1].monitor == Fired(r.times[k]) && r.events[k].Wake?
    requires j <= k && r.times[j] > r.times[k] - p.timeout
    ensures r.states[j].open == map[]
  {
    assert r.StepAt(p, k);
    LoadIsExact(p, r, k);
    forall i | j <= i < k ensures !IsActivity(r.events[i]) {
      QuietBehind(p, r, k, j, i);
    }
    QuietKeepsOpen(p, r, j, k);
    assert r.states[k].open.Keys == {};
    assert r.states[j].open.Keys == {};
  }

  /** Activity behind the start of the timeout would be remembered. */
  lemma {:induction false} QuietBehind(p: Params, r: Run, k: nat, j: nat, i: nat)
    requires r.Valid(p) && j <= i < k < |r.events|
    requires r.times[j] > r.times[k] - p.timeout && r.times[k] - r.states[k].tracker.lastActivity >= p.timeout
    ensures !IsActivity(r.events[i])
  {
    assert r.StepAt(p, i) && r.StepAt(p, j);
    ActivityIsRemembered(p, r, j + 1, i + 1);
    ActivityIsRemembered(p, r, i + 1, k);
  }

  // -- ... and idle promptness -------------------------------------------------------------

  function Max(a: real, b: real): real {
    if a >= b then a else b
  }

  /** A check that did not fire saw a request open or activity within the timeout. */
  predicate ChecksWereDue(p: Params, s: State) {
    s.monitor.Sleeping? ==>
      && s.monitor.start <= s.monitor.checked <= s.now <= s.monitor.checked + CHECK_INTERVAL + p.jitter
      && (s.tracker.load == 0 ==>
            s.monitor.checked == s.monitor.start || s.monitor.checked <= s.tracker.lastActivity + p.timeout)
  }

  lemma {:induction false} ChecksStayDue(p: Params, r: Run, k: nat)
    requires Valid(p) && r.Valid(p) && k < |r.states|
    ensures ChecksWereDue(p, r.states[k])
  {
    if k > 0 {
      ChecksStayDue(p, r, k - 1);
      assert r.StepAt(p, k - 1);
      ActivityIsRemembered(p, r, k - 1, k);
    }
  }

  /** While the monitor lives and the load is zero, the time is never later than one check
      interval behind both the end of the timeout and the start of the monitor: by then it
      has fired. */
  lemma {:induction false} IdleIsPrompt(p: Params, r: Run, k: nat)
    requires Valid(p) && r.Valid(p) && k < |r.states|
    requires r.states[k].monitor.Sleeping? && r.states[k].tracker.load == 0
    ensures var s := r.states[k];
            s.now <= Max(s.tracker.lastActivity + p.timeout, s.monitor.start) + 60.0 + p.jitter
  {
    ChecksStayDue(p, r, k);
  }

  /** A stream whose generator is never entered stays counted for ever, and the monitor
      never fires again. */
  lemma {:induction false} AbandonedNeverIdles(p: Params, r: Run, id: nat, j: nat, k: nat)
    requires r.Valid(p) && r.NoEscape() && j <= k < |r.states|
    requires id in r.states[j].open && r.states[j].open[id] == Abandoned
    ensures id in r.states[k].open && r.states[k].open[id] == Abandoned
    ensures r.states[k].tracker.load >= 1
    ensures r.states[k].monitor.Fired? ==> r.states[k].monitor == r.states[j].monitor
    decreases k
  {
    LoadIsExact(p, r, k);
    if j < k {
      AbandonedNeverIdles(p, r, id, j, k - 1);
      assert r.StepAt(p, k - 1);
      AbandonedStays(p, r.states[k - 1], r.events[k - 1], r.times[k - 1], id);
    }
    assert id in r.states[k].open.Keys;
    assert |r.states[k].open.Keys| >= 1;
  }

  lemma {:induction false} AbandonedStays(p: Params, s: State, e: Event, t: real, id: nat)
    requires Enabled(p, s, e, t) && id in s.open && s.open[id] == Abandoned && s.tracker.load >= 1
    ensures var u := After(p, s, e, t);
            && id in u.open && u.open[id] == Abandoned
            && (u.monitor.Fired? ==> u.monitor == s.monitor)
  {
  }

  /** With a timeout of zero there is never a monitor, and so nothing that fires. */
  lemma {:induction false} ZeroNeverWatches(p: Params, r: Run, k: nat)
    requires r.Valid(p) && p.timeout == 0.0 && k < |r.states|
    ensures r.states[k].monitor == Off
  {
    if k > 0 {
      ZeroNeverWatches(p, r, k - 1);
      assert r.StepAt(p, k - 1);
    }
  }

  /** No monitor checks, let alone fires, within 60 seconds of its start. */
  lemma {:induction false} FirstCheckWaits(p: Params, r: Run, k: nat)
    requires Valid(p) && r.Valid(p) && k < |r.events| && r.events[k] == Wake
    ensures r.states[k].monitor.Sleeping? && r.times[k] >= r.states[k].monitor.start + 60.0
  {
    ChecksStayDue(p, r, k);
    assert r.StepAt(p, k);
  }
}
