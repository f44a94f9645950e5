/** How fresh the heartbeat loop keeps the registry entry.

    The loop sends a heartbeat, sleeps 10 seconds, and so on; each heartbeat that reaches
    Redis sets the entry to expire 30 seconds later.  A heartbeat takes at most `latency`
    seconds and its write takes effect at some moment while it runs; a sleep ends at most
    `jitter` seconds late. */
module Freshness {
  const INTERVAL := 10.0
  const TTL := 30.0

  datatype Pace = Pace(latency: real, jitter: real) {
    /** A heartbeat and a sleep at their slowest. */
    function Round(): real {
      latency + (INTERVAL + jitter)
    }

    predicate Valid() {
      latency >= 0.0 && jitter >= 0.0
    }
  }

  datatype Beat = Failed(begin: real, end: real) | Sent(begin: real, written: real, end: real)

  predicate BeatOk(b: Beat, latency: real) {
    && b.begin <= b.end <= b.begin + latency
    && (b.Sent? ==> b.begin <= b.written <= b.end)
  }

  /** A stretch of the loop. */
  ghost predicate Loop(beats: seq<Beat>, pace: Pace) {
    && (forall i :: 0 <= i < |beats| ==> BeatOk(beats[i], pace.latency))
    && (forall i, j :: 0 <= i && j == i + 1 && j < |beats| ==>
          beats[i].end + INTERVAL <= beats[j].begin <= beats[i].end + INTERVAL + pace.jitter)
  }

  predicate AllFailed(beats: seq<Beat>, i: nat, n: nat) {
    i + n <= |beats| && forall k :: i <= k < i + n ==> beats[k].Failed?
  }

  /** No more than `failures` heartbeats fail in a row. */
  ghost predicate AtMostInARow(beats: seq<Beat>, failures: nat) {
    forall i: nat, n: nat :: AllFailed(beats, i, n) ==> n <= failures
  }

  /** The entry exists at time t: some heartbeat wrote it less than 30 seconds ago. */
  ghost predicate Alive(beats: seq<Beat>, t: real) {
    exists i :: 0 <= i < |beats| && beats[i].Sent? && beats[i].written <= t < beats[i].written + TTL
  }

  /** From a first write on, the entry exists as long as the loop runs. */
  ghost predicate Fresh(beats: seq<Beat>, pace: Pace) {
    forall i: nat, t: real :: InLoop(beats, pace, i, t) ==> Alive(beats, t)
  }

  /** Time t is behind the write of heartbeat i, and the loop still runs. */
  predicate InLoop(beats: seq<Beat>, pace: Pace, i: nat, t: real) {
    i < |beats| && beats[i].Sent? && beats[i].written <= t < beats[|beats| - 1].end + INTERVAL + pace.jitter
  }

  /** n rounds of the loop at their slowest. */
  function Rounds(n: nat, round: real): real {
    if n == 0 then 0.0 else Rounds(n - 1, round) + round
  }

  lemma {:induction false} RoundsIsProduct(n: nat, round: real)
    ensures Rounds(n, round) == (n as real) * round
  {
    if n > 0 {
      RoundsIsProduct(n - 1, round);
      var m := (n - 1) as real;
      assert (n as real) == m + 1.0;
      assert (m + 1.0) * round == m * round + round;
    }
  }

  lemma {:induction false} RoundsMonotone(m: nat, n: nat, round: real)
    requires m <= n && round >= 0.0
    ensures Rounds(m, round) <= Rounds(n, round)
  {
    if m < n {
      RoundsMonotone(m, n - 1, round);
    }
  }

  lemma {:induction false} SlowestRounds(beats: seq<Beat>, pace: Pace, i: nat, j: nat)
    requires Loop(beats, pace) && i <= j < |beats|
    ensures beats[j].begin <= beats[i].begin + Rounds(j - i, pace.Round())
    decreases j - i
  {
    if i < j {
      SlowestRounds(beats, pace, i, j - 1);
      assert BeatOk(beats[j - 1], pace.latency);
    }
  }

  /** The first heartbeat behind i that was sent, or the end. */
  lemma {:induction false} NextSent(beats: seq<Beat>, i: nat, failures: nat) returns (j: nat)
    requires i < |beats| && AtMostInARow(beats, failures)
    ensures i < j <= |beats| && j - i <= failures + 1
    ensures j < |beats| ==> beats[j].Sent?
    ensures AllFailed(beats, i + 1, j - i - 1)
  {
    j := i + 1;
    while j < |beats| && beats[j].Failed?
      invariant i < j <= |beats| && AllFailed(beats, i + 1, j - i - 1)
    {
      j := j + 1;
    }
  }

  lemma {:induction false} AliveUpTo(beats: seq<Beat>, pace: Pace, failures: nat, i: nat, t: real)
    requires pace.Valid() && Loop(beats, pace) && AtMostInARow(beats, failures)
    requires Rounds(failures + 1, pace.Round()) + pace.latency <= TTL
    requires InLoop(beats, pace, i, t)
    ensures Alive(beats, t)
    decreases |beats| - i
  {
    var j := NextSent(beats, i, failures);
    assert BeatOk(beats[i], pace.latency);
    RoundsMonotone(j - i, failures + 1, pace.Round());
    if j < |beats| {
      SlowestRounds(beats, pace, i, j);
      assert BeatOk(beats[j], pace.latency);
      if t >= beats[j].written {
        AliveUpTo(beats, pace, failures, j, t);
      }
    } else {
      SlowestRounds(beats, pace, i, j - 1);
      assert BeatOk(beats[j - 1], pace.latency);
    }
  }

  /** A loop that fails as often as it may between two writes, each heartbeat at its
      slowest, the first write early and the next one late. */
  function Slowest(begin: real, n: nat, pace: Pace): seq<Beat>
    decreases n
  {
    if n == 0 then [Sent(begin, begin + pace.latency, begin + pace.latency)]
    else [Failed(begin, begin + pace.latency)] + Slowest(begin + pace.Round(), n - 1, pace)
  }

  lemma {:induction false} SlowestIsLoop(begin: real, n: nat, pace: Pace)
    requires pace.Valid()
    ensures var s := Slowest(begin, n, pace);
            && |s| == n + 1 && s[0].begin == begin && Loop(s, pace)
            && s[n].Sent? && s[n].end == s[n].written == begin + Rounds(n, pace.Round()) + pace.latency
            && (forall k :: 0 <= k < n ==> s[k].Failed?)
    decreases n
  {
    if n > 0 {
      var next := begin + pace.Round();
      SlowestIsLoop(next, n - 1, pace);
      var s, t := Slowest(begin, n, pace), Slowest(next, n - 1, pace);
      assert forall k :: 1 <= k < |s| ==> s[k] == t[k - 1];
    }
  }

  lemma {:induction false} SlowLoopExpires(pace: Pace, failures: nat) returns (beats: seq<Beat>)
    requires pace.Valid() && Rounds(failures + 1, pace.Round()) + pace.latency > TTL
    ensures Loop(beats, pace) && AtMostInARow(beats, failures) && !Fresh(beats, pace)
  {
    var rest := Slowest(pace.Round(), failures, pace);
    SlowestIsLoop(pace.Round(), failures, pace);
    beats := [Sent(0.0, 0.0, pace.latency)] + rest;
    assert forall k :: 1 <= k < |beats| ==> beats[k] == rest[k - 1];
    assert beats[0].Sent? && beats[failures + 1].Sent?;
    forall i: nat, n: nat | AllFailed(beats, i, n) ensures n <= failures {
      assert !(i <= 0 < i + n) && !(i <= failures + 1 < i + n);
    }
    assert beats[failures + 1].written == pace.Round() + Rounds(failures, pace.Round()) + pace.latency;
    assert !Alive(beats, TTL);
    assert InLoop(beats, pace, 0, TTL);
  }

  /** The entry never expires while the loop runs, in every run with heartbeats of at most
      `latency` seconds, sleeps at most `jitter` seconds late and at most `failures` failures in
      a row, exactly when
      (failures + 1) * (10 + jitter + latency) + latency <= 30. */
  lemma {:induction false} FreshExactlyWhen(pace: Pace, failures: nat)
    requires pace.Valid()
    ensures (forall beats: seq<Beat> :: Loop(beats, pace) && AtMostInARow(beats, failures) ==> Fresh(beats, pace))
            <==> ((failures + 1) as real) * (10.0 + pace.jitter + pace.latency) + pace.latency <= 30.0
  {
    RoundsIsProduct(failures + 1, pace.Round());
    assert pace.Round() == INTERVAL + pace.jitter + pace.latency;
    if Rounds(failures + 1, pace.Round()) + pace.latency <= TTL {
      forall beats: seq<Beat> | Loop(beats, pace) && AtMostInARow(beats, failures) ensures Fresh(beats, pace) {
        forall i: nat, t: real | InLoop(beats, pace, i, t) ensures Alive(beats, t) {
          AliveUpTo(beats, pace, failures, i, t);
        }
      }
    } else {
      var beats := SlowLoopExpires(pace, failures);
    }
  }

  lemma {:induction false} InOrder(beats: seq<Beat>, pace: Pace, i: nat, j: nat)
    requires Loop(beats, pace) && i < j < |beats|
    ensures beats[i].end + INTERVAL <= beats[j].begin
    decreases j - i
  {
    if i + 1 < j {
      InOrder(beats, pace, i + 1, j);
      assert BeatOk(beats[i + 1], pace.latency);
    }
  }

  /** Once no further heartbeat gets through, the entry lives for 30 seconds behind the last
      write, and no longer. */
  lemma {:induction false} LastWriteDecides(beats: seq<Beat>, pace: Pace, i: nat, t: real)
    requires Loop(beats, pace) && i < |beats| && beats[i].Sent? && beats[i].written <= t
    requires forall j :: i < j < |beats| ==> beats[j].Failed?
    ensures Alive(beats, t) <==> t < beats[i].written + 30.0
  {
    forall k | 0 <= k < |beats| && beats[k].Sent? ensures beats[k].written <= beats[i].written {
      assert BeatOk(beats[k], pace.latency) && BeatOk(beats[i], pace.latency);
      if k < i {
        InOrder(beats, pace, k, i);
      }
    }
  }
}
