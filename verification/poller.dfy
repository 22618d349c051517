/** `wait_till_ready`: poll `bench ready-for-migration` until it succeeds or
    120 seconds have passed, sleeping one second after each failure and
    recording every attempt. Time is counted in whole milliseconds: each
    probe and each sleep takes what `Env.took` says, and a sleep lasts at
    least `SleepMs`. */
module Poller {
  import opened Lists
  import opened Runner

  const TimeoutMs: nat := 120000
  const SleepMs: nat := 1000
  const ReadyCommand: string := "ready-for-migration"

  datatype Attempt = Ready | NotReady

  /** The trace after polling, the attempts in order, the elapsed time at
      which each attempt's probe was issued, and the elapsed time at the final
      check of the loop condition. */
  datatype Polled = Polled(trace: seq<Effect>, tries: seq<Attempt>, starts: seq<nat>, elapsed: nat)

  function Probe(name: string): (r: Effect) {
    BenchCommand(name, ReadyCommand)
  }

  /** The effects a sequence of attempts issues: a probe, and after a failed
      probe a sleep. */
  function AttemptEffects(name: string, tries: seq<Attempt>): (es: seq<Effect>)
    decreases |tries|
  {
    if |tries| == 0 then []
    else (if tries[0] == Ready then [Probe(name)] else [Probe(name), Sleep])
         + AttemptEffects(name, tries[1..])
  }

  lemma {:induction false} AttemptEffectsAppend(name: string, a: seq<Attempt>, b: seq<Attempt>)
    ensures AttemptEffects(name, a + b) == AttemptEffects(name, a) + AttemptEffects(name, b)
    decreases |a|
  {
    if |a| > 0 {
      assert (a + b)[1..] == a[1..] + b;
      AttemptEffectsAppend(name, a[1..], b);
    } else {
      assert a + b == b;
    }
  }

  /** Elapsed time after a failed probe and the sleep that follows it. */
  function After(env: Env, trace: seq<Effect>, name: string, elapsed: nat): (r: nat) {
    var probed := trace + [Probe(name)];
    elapsed + env.took(trace, Probe(name)) + env.took(probed, Sleep) + SleepMs
  }

  /** The poll loop for site `name`, entered with `elapsed` milliseconds gone. */
  function Poll(env: Env, name: string, trace: seq<Effect>, elapsed: nat): (p: Polled)
    decreases if elapsed < TimeoutMs then TimeoutMs - elapsed else 0
  {
    if elapsed >= TimeoutMs then Polled(trace, [], [], elapsed)
    else
      var probed := trace + [Probe(name)];
      if !env.fails(trace, Probe(name)) then Polled(probed, [Ready], [elapsed], elapsed)
      else
        var rest := Poll(env, name, probed + [Sleep], After(env, trace, name, elapsed));
        Polled(rest.trace, [NotReady] + rest.tries, [elapsed] + rest.starts, rest.elapsed)
  }

  /** What the loop guarantees: the trace is the attempts' effects; every
      attempt but the last failed; the attempts fit in the timeout at least a
      sleep apart; there is an attempt exactly when the loop is entered in
      time; and the loop gives up only once time is out, where the final clock
      reading is the entry time when no attempt was made, the last start after
      a success, and the last start plus its probe, sleep and pause after a
      failure. The start times are stated by `PollTiming` and `PollNextStart`. */
  lemma {:induction false} PollShape(env: Env, name: string, trace: seq<Effect>, elapsed: nat)
    ensures var p := Poll(env, name, trace, elapsed);
            && p.trace == trace + AttemptEffects(name, p.tries)
            && (forall i :: 0 <= i < |p.tries| - 1 ==> p.tries[i] == NotReady)
            && (|p.tries| > 0 ==> elapsed + SleepMs * (|p.tries| - 1) < TimeoutMs)
            && (elapsed < TimeoutMs <==> |p.tries| > 0)
            && ((|p.tries| == 0 || p.tries[|p.tries| - 1] == NotReady) ==> p.elapsed >= TimeoutMs)
            && (|p.tries| == 0 ==> p.elapsed == elapsed)
            && (|p.tries| > 0 ==> |p.starts| == |p.tries|)
            && (|p.tries| > 0 && p.tries[|p.tries| - 1] == Ready ==> p.elapsed == p.starts[|p.tries| - 1])
            && (|p.tries| > 0 && p.tries[|p.tries| - 1] == NotReady ==>
                  p.elapsed == After(env, trace + AttemptEffects(name, p.tries[..|p.tries| - 1]), name,
                                     p.starts[|p.tries| - 1]))
    decreases if elapsed < TimeoutMs then TimeoutMs - elapsed else 0
  {
    var p := Poll(env, name, trace, elapsed);
    if elapsed < TimeoutMs {
      var probed := trace + [Probe(name)];
      if !env.fails(trace, Probe(name)) {
        assert p.tries == [Ready];
        assert AttemptEffects(name, [Ready]) == [Probe(name)];
      } else {
        var later := After(env, trace, name, elapsed);
        var rest := Poll(env, name, probed + [Sleep], later);
        PollShape(env, name, probed + [Sleep], later);
        assert p.tries == [NotReady] + rest.tries;
        assert ([NotReady] + rest.tries)[1..] == rest.tries;
        assert AttemptEffects(name, p.tries) == [Probe(name), Sleep] + AttemptEffects(name, rest.tries);
      }
    }
    PollFinalClock(env, name, trace, elapsed);
  }

  /** The loop's final clock reading: the entry time when no attempt was
      made, the last start after a success, and the last start plus its
      probe, sleep and pause after a failure. */
  lemma PollFinalClock(env: Env, name: string, trace: seq<Effect>, elapsed: nat)
    ensures var p := Poll(env, name, trace, elapsed);
            && (|p.tries| == 0 ==> p.elapsed == elapsed)
            && (|p.tries| > 0 ==> |p.starts| == |p.tries|)
            && (|p.tries| > 0 && p.tries[|p.tries| - 1] == Ready ==> p.elapsed == p.starts[|p.tries| - 1])
            && (|p.tries| > 0 && p.tries[|p.tries| - 1] == NotReady ==>
                  p.elapsed == After(env, trace + AttemptEffects(name, p.tries[..|p.tries| - 1]), name,
                                     p.starts[|p.tries| - 1]))
  {
    PollTiming(env, name, trace, elapsed);
    PollClockAfterSuccess(env, name, trace, elapsed);
    PollClockAfterFailure(env, name, trace, elapsed);
  }

  /** Without an attempt the clock is where the loop was entered; after a
      success it is where the last attempt started. */
  lemma {:induction false} PollClockAfterSuccess(env: Env, name: string, trace: seq<Effect>, elapsed: nat)
    ensures var p := Poll(env, name, trace, elapsed);
            && (|p.tries| == 0 ==> p.elapsed == elapsed)
            && (|p.tries| > 0 && |p.starts| == |p.tries| && p.tries[|p.tries| - 1] == Ready
                ==> p.elapsed == p.starts[|p.tries| - 1])
    decreases if elapsed < TimeoutMs then TimeoutMs - elapsed else 0
  {
    if elapsed < TimeoutMs && env.fails(trace, Probe(name)) {
      var slept := trace + [Probe(name)] + [Sleep];
      var later := After(env, trace, name, elapsed);
      var rest := Poll(env, name, slept, later);
      PollClockAfterSuccess(env, name, slept, later);
      var p := Poll(env, name, trace, elapsed);
      assert p.tries == [NotReady] + rest.tries;
      assert p.starts == [elapsed] + rest.starts;
      var n := |p.tries|;
      if n > 1 && |p.starts| == n {
        assert p.tries[n - 1] == rest.tries[n - 2];
        assert p.starts[n - 1] == rest.starts[n - 2];
      }
    }
  }

  /** After a failure that ends the loop, the clock is the last start plus
      that probe, its sleep and the pause. */
  lemma {:induction false} PollClockAfterFailure(env: Env, name: string, trace: seq<Effect>, elapsed: nat)
    ensures var p := Poll(env, name, trace, elapsed);
            |p.tries| > 0 && |p.starts| == |p.tries| && p.tries[|p.tries| - 1] == NotReady ==>
              p.elapsed == After(env, trace + AttemptEffects(name, p.tries[..|p.tries| - 1]), name,
                                 p.starts[|p.tries| - 1])
    decreases if elapsed < TimeoutMs then TimeoutMs - elapsed else 0
  {
    if elapsed < TimeoutMs && env.fails(trace, Probe(name)) {
      var slept := trace + [Probe(name)] + [Sleep];
      var later := After(env, trace, name, elapsed);
      var rest := Poll(env, name, slept, later);
      var p := Poll(env, name, trace, elapsed);
      assert p.tries == [NotReady] + rest.tries;
      assert p.starts == [elapsed] + rest.starts;
      var n := |p.tries|;
      if n == 1 {
        PollClockAfterSuccess(env, name, slept, later);
        assert p.tries[..0] == [];
        assert AttemptEffects(name, []) == [];
        assert trace + [] == trace;
      } else if |p.starts| == n {
        PollClockAfterFailure(env, name, slept, later);
        assert p.tries[n - 1] == rest.tries[n - 2];
        assert p.starts[n - 1] == rest.starts[n - 2];
        assert p.tries[..n - 1] == [NotReady] + rest.tries[..n - 2];
        AttemptEffectsAppend(name, [NotReady], rest.tries[..n - 2]);
        assert trace + AttemptEffects(name, p.tries[..n - 1]) == slept + AttemptEffects(name, rest.tries[..n - 2]);
      }
    }
  }

  /** When each attempt starts: one start time per attempt, the first when the
      loop is entered, and every one before the timeout. */
  lemma {:induction false} PollTiming(env: Env, name: string, trace: seq<Effect>, elapsed: nat)
    ensures var p := Poll(env, name, trace, elapsed);
            && |p.starts| == |p.tries|
            && (|p.starts| > 0 ==> p.starts[0] == elapsed)
            && (forall i :: 0 <= i < |p.starts| ==> p.starts[i] < TimeoutMs)
    decreases if elapsed < TimeoutMs then TimeoutMs - elapsed else 0
  {
    if elapsed < TimeoutMs && env.fails(trace, Probe(name)) {
      var later := After(env, trace, name, elapsed);
      var rest := Poll(env, name, trace + [Probe(name)] + [Sleep], later);
      PollTiming(env, name, trace + [Probe(name)] + [Sleep], later);
      var p := Poll(env, name, trace, elapsed);
      assert p.starts == [elapsed] + rest.starts;
      forall i | 1 <= i < |p.starts| ensures p.starts[i] < TimeoutMs {
        assert p.starts[i] == rest.starts[i - 1];
      }
    }
  }

  /** The next attempt starts when the previous probe and its sleep are over:
      the clock is read again before every attempt. */
  lemma {:induction false} PollNextStart(env: Env, name: string, trace: seq<Effect>, elapsed: nat, i: nat)
    requires i + 1 < |Poll(env, name, trace, elapsed).tries|
    ensures var p := Poll(env, name, trace, elapsed);
            i + 1 < |p.starts|
            && p.starts[i + 1] == After(env, trace + AttemptEffects(name, p.tries[..i]), name, p.starts[i])
    decreases if elapsed < TimeoutMs then TimeoutMs - elapsed else 0
  {
    var p := Poll(env, name, trace, elapsed);
    PollTiming(env, name, trace, elapsed);
    assert elapsed < TimeoutMs && env.fails(trace, Probe(name));
    var slept := trace + [Probe(name)] + [Sleep];
    var later := After(env, trace, name, elapsed);
    var rest := Poll(env, name, slept, later);
    PollTiming(env, name, slept, later);
    assert p.tries == [NotReady] + rest.tries;
    assert p.starts == [elapsed] + rest.starts;
    if i == 0 {
      assert p.tries[..0] == [];
      assert AttemptEffects(name, []) == [];
      assert trace + [] == trace;
    } else {
      PollNextStart(env, name, slept, later, i - 1);
      assert p.tries[..i] == [NotReady] + rest.tries[..i - 1];
      AttemptEffectsAppend(name, [NotReady], rest.tries[..i - 1]);
      assert trace + AttemptEffects(name, p.tries[..i]) == slept + AttemptEffects(name, rest.tries[..i - 1]);
    }
  }

  /** A probe that takes the whole timeout is the only attempt: the loop
      reads the clock before trying again. */
  lemma SlowProbeIsTheOnlyAttempt(env: Env, name: string, trace: seq<Effect>)
    requires env.took(trace, Probe(name)) >= TimeoutMs
    ensures |Poll(env, name, trace, 0).tries| == 1
  {
    var p := Poll(env, name, trace, 0);
    PollShape(env, name, trace, 0);
    PollTiming(env, name, trace, 0);
    if |p.tries| > 1 {
      assert false;
    }
  }

  /** Every recorded attempt is the oracle's verdict on the probe issued at
      that point of the trace. */
  lemma {:induction false} PollRecordsEveryAttempt(env: Env, name: string, trace: seq<Effect>, elapsed: nat, i: nat)
    requires i < |Poll(env, name, trace, elapsed).tries|
    ensures var p := Poll(env, name, trace, elapsed);
            p.tries[i] == Ready <==> !env.fails(trace + AttemptEffects(name, p.tries[..i]), Probe(name))
    decreases if elapsed < TimeoutMs then TimeoutMs - elapsed else 0
  {
    var p := Poll(env, name, trace, elapsed);
    assert elapsed < TimeoutMs;
    var probed := trace + [Probe(name)];
    if env.fails(trace, Probe(name)) {
      var slept := probed + [Sleep];
      var later := After(env, trace, name, elapsed);
      var rest := Poll(env, name, slept, later);
      assert p.tries == [NotReady] + rest.tries;
      if i > 0 {
        PollRecordsEveryAttempt(env, name, slept, later, i - 1);
        assert p.tries[..i] == [NotReady] + rest.tries[..i - 1];
        AttemptEffectsAppend(name, [NotReady], rest.tries[..i - 1]);
        assert trace + AttemptEffects(name, p.tries[..i]) == slept + AttemptEffects(name, rest.tries[..i - 1]);
      } else {
        assert p.tries[..0] == [];
        assert AttemptEffects(name, []) == [];
        assert trace + [] == trace;
      }
    } else {
      assert p.tries == [Ready];
      assert p.tries[..0] == [];
      assert AttemptEffects(name, []) == [];
      assert trace + [] == trace;
    }
  }

  /** One round of the loop when the probe fails: record it, sleep, go on. */
  lemma PollNotReadyNow(env: Env, name: string, trace: seq<Effect>, elapsed: nat)
    requires elapsed < TimeoutMs
    requires env.fails(trace, Probe(name))
    ensures var rest := Poll(env, name, trace + [Probe(name), Sleep], After(env, trace, name, elapsed));
            Poll(env, name, trace, elapsed) == Polled(rest.trace, [NotReady] + rest.tries, [elapsed] + rest.starts, rest.elapsed)
  {
    assert trace + [Probe(name)] + [Sleep] == trace + [Probe(name), Sleep];
  }

  /** The step as the source writes it: a loop over the clock. It never
      raises (its result carries no failure), stops right after the first
      success, gives up after a failure only once the clock, read after that
      probe and its sleep, is past the 120-second timeout, and the 1-second
      sleep after every failure bounds the attempts by that timeout. */
  method WaitTillReady(env: Env, name: string, trace: seq<Effect>) returns (p: Polled)
    ensures p == Poll(env, name, trace, 0)
    ensures 0 < |p.tries| <= TimeoutMs / SleepMs
    ensures forall i :: 0 <= i < |p.tries| - 1 ==> p.tries[i] == NotReady
    ensures |p.starts| == |p.tries| && p.starts[0] == 0
    ensures forall i :: 0 <= i < |p.starts| ==> p.starts[i] < TimeoutMs
    ensures p.tries[|p.tries| - 1] == Ready ==> p.elapsed == p.starts[|p.tries| - 1]
    ensures p.tries[|p.tries| - 1] == NotReady ==>
              && p.elapsed >= TimeoutMs
              && p.elapsed == After(env, trace + AttemptEffects(name, p.tries[..|p.tries| - 1]), name,
                                    p.starts[|p.tries| - 1])
  {
    p := PollLoop(env, name, trace);
    WaitTillReadyBounds(env, name, trace);
  }

  /** The `while` loop itself, shown to compute `Poll` from time 0. */
  method PollLoop(env: Env, name: string, trace: seq<Effect>) returns (p: Polled)
    ensures p == Poll(env, name, trace, 0)
  {
    var t := trace;
    var tries: seq<Attempt> := [];
    var starts: seq<nat> := [];
    var elapsed: nat := 0;
    while elapsed < TimeoutMs
      invariant var rest := Poll(env, name, t, elapsed);
                Poll(env, name, trace, 0) == Polled(rest.trace, tries + rest.tries, starts + rest.starts, rest.elapsed)
      decreases TimeoutMs - elapsed
    {
      if !env.fails(t, Probe(name)) {
        t := t + [Probe(name)];
        tries := tries + [Ready];
        starts := starts + [elapsed];
        return Polled(t, tries, starts, elapsed);
      }
      PollNotReadyNow(env, name, t, elapsed);
      ghost var next := Poll(env, name, t + [Probe(name), Sleep], After(env, t, name, elapsed));
      AppendAssoc(tries, [NotReady], next.tries);
      AppendAssoc(starts, [elapsed], next.starts);
      starts := starts + [elapsed];
      elapsed := After(env, t, name, elapsed);
      t := t + [Probe(name), Sleep];
      tries := tries + [NotReady];
    }
    p := Polled(t, tries, starts, elapsed);
  }

  /** Consequences for the step: at least one attempt, at most one per second
      of the timeout, every attempt but the last a failure, the first
      starting at 0 and every one before the timeout; the loop stops at a
      success, and after a failure only once the clock is past the timeout. */
  lemma WaitTillReadyBounds(env: Env, name: string, trace: seq<Effect>)
    ensures var p := Poll(env, name, trace, 0);
            && 0 < |p.tries| <= TimeoutMs / SleepMs
            && (forall i :: 0 <= i < |p.tries| - 1 ==> p.tries[i] == NotReady)
            && |p.starts| == |p.tries| && p.starts[0] == 0
            && (forall i :: 0 <= i < |p.starts| ==> p.starts[i] < TimeoutMs)
            && (p.tries[|p.tries| - 1] == Ready ==> p.elapsed == p.starts[|p.tries| - 1])
            && (p.tries[|p.tries| - 1] == NotReady ==>
                  && p.elapsed >= TimeoutMs
                  && p.elapsed == After(env, trace + AttemptEffects(name, p.tries[..|p.tries| - 1]), name,
                                        p.starts[|p.tries| - 1]))
  {
    PollShape(env, name, trace, 0);
    PollTiming(env, name, trace, 0);
  }
}
