/** Request pacing: persisted cooldown deadlines, adaptive delay and the request budget, over restarts on one store. */
module Pacing {
  import opened Outcomes

  type Duration = r: real | r >= 0.0

  const MAX_RETRY_AFTER: Duration := 900.0
  const SLEEP_SLICE: Duration := 30.0
  const PROBE_CEILING: Duration := 900.0
  const SUCCESSES_PER_REDUCTION: nat := 100
  const SETTLED_STREAK: nat := 5

  function MinReal(a: real, b: real): real {
    if a <= b then a else b
  }

  function MaxReal(a: real, b: real): real {
    if a >= b then a else b
  }

  function Pow2(n: nat): (p: real)
    ensures p >= 1.0
  {
    if n == 0 then 1.0 else 2.0 * Pow2(n - 1)
  }

  /** The wait before the next probe after this many throttled replies in a row. */
  function ProbeWait(streak: nat): Duration
    requires streak > 0
  {
    MinReal(PROBE_CEILING, 60.0 * Pow2(Min(streak - 1, 4)))
  }

  /** Probes wait 1, 2, 4 and 8 minutes, and from the fifth on a quarter of an hour. */
  lemma ProbesSettle(streak: nat)
    requires streak > 0
    ensures ProbeWait(streak) == if streak >= 5 then 900.0 else [60.0, 120.0, 240.0, 480.0][streak - 1]
  {
    assert Pow2(4) == 2.0 * Pow2(3) == 4.0 * Pow2(2) == 8.0 * Pow2(1) == 16.0;
  }

  /** A request was sent, or a deadline persisted (with the throttle streak that set it, 0 for other failures). */
  datatype Event = Started(at: real) | Persisted(until: real, streak: nat)

  /**
   * No request starts before a deadline persisted earlier, deadlines never move back, and a throttle's
   * deadline keeps its distance from the request it answers.
   */
  ghost predicate Disciplined(trace: seq<Event>) {
    && (forall i, j :: 0 <= i < j < |trace| && trace[i].Persisted? && trace[j].Started? ==>
      trace[i].until <= trace[j].at)
    && (forall i, j :: 0 <= i < j < |trace| && trace[i].Persisted? && trace[j].Persisted? ==>
      trace[i].until <= trace[j].until)
    && (forall i, j :: 0 <= i < j < |trace| && trace[i].Started? && trace[j].Started? ==> trace[i].at <= trace[j].at)
    && forall i :: 0 <= i < |trace| && trace[i].Persisted? && trace[i].streak > 0 ==>
         i > 0 && trace[i - 1].Started? && trace[i - 1].at + ProbeWait(trace[i].streak) <= trace[i].until
  }

  /** The stored deadline is the latest, and no request lies in the future. */
  ghost predicate UpToDate(trace: seq<Event>, until: Option<real>, now: real) {
    && (forall i :: 0 <= i < |trace| && trace[i].Started? ==> trace[i].at <= now)
    && (forall i :: 0 <= i < |trace| && trace[i].Persisted? ==> until.Some? && trace[i].until <= until.value)
  }

  ghost predicate OnTime(trace: seq<Event>, until: Option<real>, now: real) {
    Disciplined(trace) && UpToDate(trace, until, now)
  }

  lemma TimePasses(trace: seq<Event>, until: Option<real>, now: real, later: real)
    requires OnTime(trace, until, now) && now <= later
    ensures OnTime(trace, until, later)
  {
    hide Disciplined;
  }

  lemma RequestStarts(trace: seq<Event>, until: Option<real>, now: real)
    requires OnTime(trace, until, now) && (until.Some? ==> until.value <= now)
    ensures OnTime(trace + [Started(now)], until, now)
  {
    hide ProbeWait;
    var longer := trace + [Started(now)];
    assert forall i :: 0 <= i < |trace| ==> longer[i] == trace[i];
    assert forall i :: 0 <= i < |trace| && trace[i].Persisted? ==> trace[i].until <= until.value <= now;
  }

  lemma DeadlineMoves(trace: seq<Event>, until: Option<real>, now: real, deadline: real, streak: nat)
    requires OnTime(trace, until, now) && (until.Some? ==> until.value <= now) && now <= deadline
    requires streak > 0 ==>
      trace != [] && trace[|trace| - 1].Started? && trace[|trace| - 1].at + ProbeWait(streak) <= deadline
    ensures OnTime(trace + [Persisted(deadline, streak)], Some(deadline), now)
  {
    hide ProbeWait;
    var longer := trace + [Persisted(deadline, streak)];
    assert forall i :: 0 <= i < |trace| ==> longer[i] == trace[i];
    assert forall i :: 0 <= i < |trace| && trace[i].Persisted? ==> trace[i].until <= until.value <= now;
  }

  datatype SavedPacing = SavedPacing(rpc: string, delay: Duration, streak: nat)

  /** The store's metadata rows and the one clock that every invocation reads. */
  class World {
    var now: real
    var until: Option<real>
    var pacing: Option<SavedPacing>
    ghost var trace: seq<Event>

    ghost predicate Ok()
      reads this
    {
      OnTime(trace, until, now)
    }

    ghost predicate CooledDown()
      reads this
    {
      until.Some? ==> until.value <= now
    }

    constructor (now: real)
      ensures Ok() && until == None && trace == []
    {
      this.now, until, pacing, trace := now, None, None, [];
    }

    method Tick()
      requires Ok()
      modifies `now
      ensures Ok() && old(now) <= now
    {
      hide OnTime;
      var elapsed: real := *;
      if elapsed > 0.0 {
        TimePasses(trace, until, now, now + elapsed);
        now := now + elapsed;
      }
    }

    method Sleep(duration: real)
      requires Ok()
      modifies `now
      ensures Ok() && old(now) <= now && old(now) + duration <= now
    {
      hide OnTime;
      if duration > 0.0 {
        TimePasses(trace, until, now, now + duration);
        now := now + duration;
      }
      Tick();
    }

    method Start()
      requires Ok() && CooledDown()
      modifies `trace
      ensures Ok() && trace == old(trace) + [Started(now)]
    {
      hide OnTime;
      RequestStarts(trace, until, now);
      trace := trace + [Started(now)];
    }

    method Persist(wait: Duration, ghost streak: nat)
      requires Ok() && CooledDown()
      requires streak > 0 ==> trace != [] && trace[|trace| - 1].Started? && ProbeWait(streak) <= wait
      modifies `until, `trace
      ensures Ok() && until == Some(now + wait) && trace == old(trace) + [Persisted(now + wait, streak)]
    {
      LastStartIsPast(trace, until, now);
      hide OnTime, ProbeWait;
      DeadlineMoves(trace, until, now, now + wait, streak);
      until := Some(now + wait);
      trace := trace + [Persisted(now + wait, streak)];
    }
  }

  lemma LastStartIsPast(trace: seq<Event>, until: Option<real>, now: real)
    requires OnTime(trace, until, now)
    ensures trace != [] && trace[|trace| - 1].Started? ==> trace[|trace| - 1].at <= now
  {
  }

  // ---------------------------------------------------------------- one invocation

  datatype Response = Success | HeaderOverflow
    | Failure(retryAfter: Option<Duration>, retryable: bool, throttled: bool, capacity: bool)

  datatype Outcome = Done | Raised(rangeLimit: bool) | CooldownExceeded | BudgetReached | Interrupted

  datatype Next = Again(attempt: nat, capacityFailures: nat) | Stop(outcome: Outcome)

  datatype Sent = Reply | OverBudget | TooLong

  datatype Settings = Settings(rpc: string, delay: Duration, budget: Option<nat>, attempts: nat, adaptive: bool)

  predicate Usable(s: Settings) {
    s.attempts >= 1
  }

  class Rpc {
    const world: World
    const settings: Settings
    const maxDelay: Duration
    var effectiveDelay: Duration
    var streak: nat
    var successes: nat
    var calls: nat
    var lastCall: real
    var resumeWait: Duration

    /** Waiting `resumeWait` from now is waiting long enough. */
    ghost predicate Resumable()
      reads this, world
    {
      && (world.until.Some? ==> world.until.value <= world.now + resumeWait)
      && (resumeWait > 0.0 ==> world.until.Some?)
    }

    predicate InBudget()
      reads this
    {
      settings.budget.Some? ==> calls <= settings.budget.value
    }

    /** Successes are counted up to the next reduction. */
    predicate Counted()
      reads this
    {
      successes < SUCCESSES_PER_REDUCTION
    }

    /** The pace stays between the configured delay and its ceiling; without adaptation it never changes. */
    predicate Paced()
      reads this
    {
      && maxDelay == MaxReal(60.0, settings.delay)
      && settings.delay <= effectiveDelay <= maxDelay
      && (!settings.adaptive ==> effectiveDelay == settings.delay)
    }

    ghost predicate Valid()
      reads this, world
    {
      world.Ok() && Usable(settings) && InBudget() && Paced() && Counted() && Resumable()
    }

    constructor (world: World, settings: Settings)
      requires world.Ok() && Usable(settings)
      ensures this.world == world && this.settings == settings && Valid() && calls == 0
      ensures
        if settings.adaptive && world.pacing.Some? && world.pacing.value.rpc == settings.rpc then
          && streak == world.pacing.value.streak
          && (settings.delay <= world.pacing.value.delay <= maxDelay ==> effectiveDelay == world.pacing.value.delay)
          && (world.pacing.value.delay < settings.delay ==> effectiveDelay == settings.delay)
          && (world.pacing.value.delay > maxDelay ==> effectiveDelay == maxDelay)
        else streak == 0 && effectiveDelay == settings.delay
    {
      this.world, this.settings := world, settings;
      this.maxDelay := MaxReal(60.0, settings.delay);
      effectiveDelay, streak := settings.delay, 0;
      if settings.adaptive && world.pacing.Some? && world.pacing.value.rpc == settings.rpc {
        effectiveDelay := MinReal(MaxReal(60.0, settings.delay), MaxReal(settings.delay, world.pacing.value.delay));
        streak := world.pacing.value.streak;
      }
      successes, calls, lastCall := 0, 0, 0.0;
      resumeWait := if world.until.Some? then MaxReal(0.0, world.until.value - world.now) else 0.0;
    }

    method SuccessfulCall()
      requires Valid()
      modifies this`effectiveDelay, this`streak, this`successes, world`pacing
      ensures Valid()
      ensures settings.adaptive ==> streak == 0 && successes == (old(successes) + 1) % 100
      ensures effectiveDelay ==
        if settings.adaptive && old(successes) + 1 == 100
        then MaxReal(settings.delay, old(effectiveDelay) * 0.9) else old(effectiveDelay)
      ensures settings.adaptive && (old(streak) > 0 || effectiveDelay != old(effectiveDelay)) ==>
        world.pacing == Some(SavedPacing(settings.rpc, effectiveDelay, 0))
    {
      if !settings.adaptive {
        return;
      }
      var recovered := streak > 0;
      streak, successes := 0, successes + 1;
      if successes >= SUCCESSES_PER_REDUCTION {
        successes := 0;
        if effectiveDelay > settings.delay {
          effectiveDelay := MaxReal(settings.delay, effectiveDelay * 0.9);
          world.pacing := Some(SavedPacing(settings.rpc, effectiveDelay, streak));
          return;
        }
      }
      if recovered {
        world.pacing := Some(SavedPacing(settings.rpc, effectiveDelay, streak));
      }
    }

    /** Sleeps in slices until the stored deadline. */
    method WaitAdaptiveCooldown()
      requires world.Ok() && world.until.Some?
      modifies world`now, this`resumeWait
      ensures world.Ok() && world.CooledDown() && resumeWait == 0.0 && old(world.now) <= world.now
    {
      var deadline := world.until.value;
      var remaining := MaxReal(0.0, deadline - world.now);
      var end := world.now + remaining;
      while remaining > 0.0
        invariant world.Ok() && old(world.now) <= world.now && deadline <= end
        invariant remaining == MaxReal(0.0, end - world.now)
        decreases (remaining / SLEEP_SLICE).Floor + if remaining > 0.0 then 1 else 0
      {
        ghost var before := remaining;
        world.Sleep(MinReal(SLEEP_SLICE, remaining));
        remaining := MaxReal(0.0, MaxReal(end - world.now, deadline - world.now));
        SlicePassed(before, remaining);
      }
      resumeWait := 0.0;
    }

    /** Budget, then cooldown, then the minimum spacing, then one request. */
    method CallOnce() returns (sent: Sent)
      requires Valid()
      modifies this`resumeWait, this`calls, this`lastCall, world`now, world`trace
      ensures Valid() && old(world.now) <= world.now
      ensures sent.OverBudget? <==> settings.budget == Some(old(calls))
      ensures sent.TooLong? <==> !sent.OverBudget? && !settings.adaptive && old(resumeWait) > MAX_RETRY_AFTER
      ensures sent.Reply? ==> resumeWait == 0.0 && world.CooledDown() && calls == old(calls) + 1
      ensures sent.Reply? ==>
        world.trace == old(world.trace) + [Started(lastCall)] && old(lastCall) + effectiveDelay <= lastCall
      ensures !sent.Reply? ==> calls == old(calls) && world.trace == old(world.trace) && lastCall == old(lastCall)
    {
      hide OnTime;
      if settings.budget.Some? && calls >= settings.budget.value {
        return OverBudget;
      }
      if resumeWait > 0.0 {
        if settings.adaptive {
          WaitAdaptiveCooldown();
        } else if resumeWait > MAX_RETRY_AFTER {
          return TooLong;
        } else {
          world.Sleep(resumeWait);
        }
        resumeWait := 0.0;
      }
      world.Sleep(MaxReal(0.0, effectiveDelay - (world.now - lastCall)));
      world.Start();
      calls, lastCall := calls + 1, world.now;
      world.Tick();
      sent := Reply;
    }

    /** A throttled reply: back off, persist the next probe time, and wait for it if the budget has room. */
    method Throttle(retryAfter: Option<Duration>) returns (waited: bool)
      requires Valid() && settings.adaptive && world.CooledDown()
      requires world.trace != [] && world.trace[|world.trace| - 1].Started?
      modifies this`streak, this`successes, this`effectiveDelay, this`resumeWait, world`now, world`until, world`pacing,
               world`trace
      ensures Valid() && streak == old(streak) + 1 && successes == 0
      ensures effectiveDelay == MinReal(maxDelay, MaxReal(1.0, MaxReal(settings.delay, old(effectiveDelay) * 2.0)))
      ensures world.pacing == Some(SavedPacing(settings.rpc, effectiveDelay, streak))
      ensures world.until.Some? && old(world.now) + ProbeWait(streak) <= world.until.value
      ensures retryAfter.Some? ==> old(world.now) + retryAfter.value <= world.until.value
      ensures world.trace == old(world.trace) + [Persisted(world.until.value, streak)]
      ensures waited <==> settings.budget != Some(calls)
      ensures waited ==> world.CooledDown() && resumeWait == 0.0
    {
      hide OnTime, ProbeWait;
      streak, successes := streak + 1, 0;
      effectiveDelay := MinReal(maxDelay, MaxReal(1.0, MaxReal(settings.delay, effectiveDelay * 2.0)));
      var wait: Duration := MaxReal(if retryAfter.Some? then retryAfter.value else 0.0, ProbeWait(streak));
      world.Persist(wait, streak);
      world.pacing := Some(SavedPacing(settings.rpc, effectiveDelay, streak));
      resumeWait := wait;
      if settings.budget.Some? && calls >= settings.budget.value {
        return false;
      }
      WaitAdaptiveCooldown();
      waited := true;
    }

    /** After a failed reply: persist its deadline, then give up or wait and try again. */
    method AfterFailure(failure: Response, getLogs: bool, attempt: nat, capacityFailures: nat) returns (next: Next)
      requires Valid() && world.CooledDown() && failure.Failure? && attempt < settings.attempts
      requires world.trace != [] && world.trace[|world.trace| - 1].Started?
      modifies this`streak, this`successes, this`effectiveDelay, this`resumeWait, world`now, world`until, world`pacing,
               world`trace
      ensures Valid() && old(world.trace) <= world.trace && Starts(world.trace) == Starts(old(world.trace))
      ensures next.Again? ==> next.attempt < settings.attempts && (!settings.adaptive ==> next.attempt == attempt + 1)
      ensures failure.retryAfter.Some? ==>
        world.until.Some? && old(world.now) + failure.retryAfter.value <= world.until.value
      ensures next.Again? ==> failure.retryable && settings.budget != Some(calls)
      ensures next.Stop? ==> !next.outcome.Done? && (next.outcome == Raised(true) ==> getLogs)
      ensures next.Again? ==>
        next ==
        if settings.adaptive && failure.throttled then Again(attempt, 0)
        else Again(attempt + 1, if failure.capacity then capacityFailures + 1 else 0)
      ensures next.Stop? ==>
        GivesUp(settings, failure, getLogs, attempt, capacityFailures, settings.budget == Some(calls), next.outcome)
      ensures !failure.retryable && failure.retryAfter.None? ==> world.trace == old(world.trace)
      ensures
        && (failure.retryable || failure.retryAfter.Some?)
        && !(settings.adaptive && failure.retryable && failure.throttled)
        ==>
        world.trace == old(world.trace) + [Persisted(old(world.now) + WaitFor(failure, attempt), 0)]
      ensures next.Again? ==> world.CooledDown() && resumeWait == 0.0
    {
      hide OnTime, ProbeWait, Pow2, Starts, Backoff;
      ghost var sent := world.trace;
      if !failure.retryable && failure.retryAfter.None? {
        return Stop(Raised(false));
      }
      if settings.adaptive && failure.retryable && failure.throttled {
        var waited := Throttle(failure.retryAfter);
        DeadlineCounts(sent, world.until.value, streak);
        return if waited then Again(attempt, 0) else Stop(BudgetReached);
      }
      var capacity := if failure.capacity then capacityFailures + 1 else 0;
      var wait := Backoff(failure.retryAfter, attempt);
      BackoffSeconds(failure, attempt);
      world.Persist(wait, 0);
      resumeWait := wait;
      DeadlineCounts(sent, world.until.value, 0);
      if wait > MAX_RETRY_AFTER && !(settings.adaptive && failure.retryable) {
        return Stop(CooldownExceeded);
      }
      if !failure.retryable {
        return Stop(Raised(false));
      }
      if getLogs && capacity >= 2 {
        return Stop(Raised(true));
      }
      if attempt + 1 >= settings.attempts {
        return Stop(Raised(false));
      }
      if settings.budget.Some? && calls >= settings.budget.value {
        return Stop(BudgetReached);
      }
      if settings.adaptive {
        WaitAdaptiveCooldown();
      } else {
        world.Sleep(wait);
      }
      resumeWait := 0.0;
      next := Again(attempt + 1, capacity);
    }

    /**
     * One RPC call with its retries, against whatever the provider answers; a script that runs out is an
     * interruption.
     */
    method Call(getLogs: bool, script: seq<Response>) returns (outcome: Outcome, used: nat)
      requires Valid()
      modifies this, world
      ensures Valid() && old(world.trace) <= world.trace && used <= |script|
      ensures calls == old(calls) + used && Starts(world.trace) == Starts(old(world.trace)) + used
      ensures !settings.adaptive ==> used <= settings.attempts
      ensures outcome.Done? <==> used > 0 && script[used - 1].Success?
      ensures outcome == Raised(true) ==> getLogs
      ensures StopsForAReason(settings, getLogs, script, used, settings.budget == Some(calls), outcome)
      ensures outcome.CooldownExceeded? && used == 0 ==> !settings.adaptive && old(resumeWait) > 900.0
    {
      hide OnTime, Starts, Paced, Resumable, StopsForAReason, GivesUp, Tries, WaitFor;
      NothingTried(settings, getLogs, script);
      var attempt: nat, capacityFailures: nat := 0, 0;
      used := 0;
      while attempt < settings.attempts
        invariant Valid() && old(world.trace) <= world.trace && used <= |script|
        invariant calls == old(calls) + used && Starts(world.trace) == Starts(old(world.trace)) + used
        invariant !settings.adaptive ==> used == attempt
        invariant AllRetried(script[..used]) && attempt == Tries(settings, script[..used])
        invariant used > 0 ==> resumeWait == 0.0
        invariant used == 0 ==> resumeWait == old(resumeWait)
        invariant capacityFailures > 0 ==> used > 0 && script[used - 1].Failure? && script[used - 1].capacity
        invariant attempt < settings.attempts && (used > 0 ==> !script[used - 1].Success?)
        decreases |script| - used
      {
        BetweenTries(settings, getLogs, script, used);
        if used == |script| {
          return Interrupted, used;
        }
        ghost var before := world.trace;
        var sent := CallOnce();
        if !sent.Reply? {
          return (if sent.OverBudget? then BudgetReached else CooldownExceeded), used;
        }
        StartCounts(before, lastCall);
        var response := script[used];
        used := used + 1;
        LastTry(settings, getLogs, script, used, attempt, capacityFailures);
        if response.Success? {
          SuccessfulCall();
          return Done, used;
        }
        if response.HeaderOverflow? {
          return CooldownExceeded, used;
        }
        var next := AfterFailure(response, getLogs, attempt, capacityFailures);
        if next.Stop? {
          return next.outcome, used;
        }
        OneMoreTry(settings, script, used);
        attempt, capacityFailures := next.attempt, next.capacityFailures;
      }
      assert false;
    }
  }

  /** The seconds to wait after a failure: what the provider asked for, else 1, 2, 4, ... up to 60. */
  function WaitFor(failure: Response, attempt: nat): real
    requires failure.Failure?
  {
    if failure.retryAfter.Some? then failure.retryAfter.value
    else if attempt >= 6 then 60.0 else [1.0, 2.0, 4.0, 8.0, 16.0, 32.0][attempt]
  }

  lemma BackoffSeconds(failure: Response, attempt: nat)
    requires failure.Failure?
    ensures Backoff(failure.retryAfter, attempt) == WaitFor(failure, attempt)
  {
    if attempt >= 6 {
      PowGrows(6, attempt);
    }
    assert Pow2(6) == 64.0 && Pow2(5) == 32.0 && Pow2(4) == 16.0 && Pow2(3) == 8.0 && Pow2(2) == 4.0 && Pow2(1) == 2.0;
  }

  lemma {:induction false} PowGrows(m: nat, n: nat)
    requires m <= n
    ensures Pow2(m) <= Pow2(n)
  {
    if m < n {
      PowGrows(m, n - 1);
    }
  }

  /** The reasons for not trying again after a failure; without one of them there is another request. */
  predicate GivesUp(settings: Settings, failure: Response, getLogs: bool, attempt: nat, capacityFailures: nat,
                    exhausted: bool, outcome: Outcome)
    requires failure.Failure?
  {
    match outcome
    case Raised(false) =>
      !failure.retryable || (attempt + 1 >= settings.attempts && !(settings.adaptive && failure.throttled))
    case Raised(true) => getLogs && failure.retryable && failure.capacity && capacityFailures >= 1
    case BudgetReached => exhausted && failure.retryable
    case CooldownExceeded =>
      failure.retryAfter.Some? && failure.retryAfter.value > 900.0 && !(settings.adaptive && failure.retryable)
    case _ => false
  }

  /** The provider's own wait if it gave one, else exponential backoff up to a minute. */
  function Backoff(retryAfter: Option<Duration>, attempt: nat): Duration {
    if retryAfter.Some? then retryAfter.value else MinReal(60.0, Pow2(attempt))
  }

  /** How many of the failures count against the configured attempts: with adaptive pacing, throttled ones do not. */
  function Tries(settings: Settings, failures: seq<Response>): nat {
    if failures == [] then 0
    else
      var last := failures[|failures| - 1];
      Tries(settings, failures[..|failures| - 1])
      + if settings.adaptive && last.Failure? && last.throttled then 0 else 1
  }

  predicate AllRetried(failures: seq<Response>) {
    forall i :: 0 <= i < |failures| ==> failures[i].Failure? && failures[i].retryable
  }

  /**
   * Every response before the last was a retryable failure, and the call ended with a success, a failure that cannot
   * be retried, two capacity failures in a row, used-up attempts or budget, an excessive cooldown or an interruption.
   */
  predicate StopsForAReason(settings: Settings, getLogs: bool, script: seq<Response>, used: nat, exhausted: bool,
                            outcome: Outcome)
    requires used <= |script|
  {
    && (used > 0 ==> AllRetried(script[..used - 1]))
    && match outcome
       case Done => used > 0 && script[used - 1].Success?
       case Interrupted => used == |script|
       case BudgetReached => exhausted
       case CooldownExceeded =>
         used > 0 ==>
           script[used - 1].HeaderOverflow?
           || (script[used - 1].Failure? && !(settings.adaptive && script[used - 1].retryable)
               && script[used - 1].retryAfter.Some? && script[used - 1].retryAfter.value > 900.0)
       case Raised(true) =>
         getLogs && used > 1 && script[used - 1].Failure? && script[used - 1].capacity
         && script[used - 2].Failure? && script[used - 2].capacity
       case Raised(false) =>
         used > 0 && script[used - 1].Failure?
         && (!script[used - 1].retryable || Tries(settings, script[..used]) >= settings.attempts)
  }

  lemma NothingTried(settings: Settings, getLogs: bool, script: seq<Response>)
    ensures AllRetried(script[..0]) && Tries(settings, script[..0]) == 0
  {
  }

  lemma BetweenTries(settings: Settings, getLogs: bool, script: seq<Response>, used: nat)
    requires used <= |script| && AllRetried(script[..used])
    ensures StopsForAReason(settings, getLogs, script, used, true, BudgetReached)
    ensures used == 0 ==> StopsForAReason(settings, getLogs, script, used, false, CooldownExceeded)
    ensures used == |script| ==>
      forall exhausted :: StopsForAReason(settings, getLogs, script, used, exhausted, Interrupted)
  {
    if used > 0 {
      assert forall i :: 0 <= i < used - 1 ==> script[..used - 1][i] == script[..used][i];
    }
  }

  lemma LastTry(settings: Settings, getLogs: bool, script: seq<Response>, used: nat, attempt: nat,
                capacityFailures: nat)
    requires 0 < used <= |script| && AllRetried(script[..used - 1]) && attempt == Tries(settings, script[..used - 1])
    requires capacityFailures > 0 ==> used > 1 && script[used - 2].Failure? && script[used - 2].capacity
    ensures
      var last := script[used - 1];
      && (last.Success? ==> forall exhausted :: StopsForAReason(settings, getLogs, script, used, exhausted, Done))
      && (last.HeaderOverflow? ==>
            forall exhausted :: StopsForAReason(settings, getLogs, script, used, exhausted, CooldownExceeded))
      && (last.Failure? ==> forall exhausted, outcome ::
            GivesUp(settings, last, getLogs, attempt, capacityFailures, exhausted, outcome) ==>
              StopsForAReason(settings, getLogs, script, used, exhausted, outcome))
  {
    assert script[..used][..used - 1] == script[..used - 1];
  }

  lemma OneMoreTry(settings: Settings, script: seq<Response>, used: nat)
    requires 0 < used <= |script| && AllRetried(script[..used - 1])
    requires script[used - 1].Failure? && script[used - 1].retryable
    ensures AllRetried(script[..used])
    ensures Tries(settings, script[..used])
      == Tries(settings, script[..used - 1]) + if settings.adaptive && script[used - 1].throttled then 0 else 1
  {
    assert script[..used][..used - 1] == script[..used - 1];
    assert script[..used] == script[..used - 1] + [script[used - 1]];
  }

  lemma SlicePassed(before: real, remaining: real)
    requires before > 0.0 && remaining >= 0.0
    requires remaining <= before - MinReal(SLEEP_SLICE, before) || remaining == 0.0
    ensures (remaining / SLEEP_SLICE).Floor + (if remaining > 0.0 then 1 else 0) < (before / SLEEP_SLICE).Floor + 1
    ensures (remaining / SLEEP_SLICE).Floor >= 0
  {
    if remaining > 0.0 {
      assert remaining / SLEEP_SLICE <= before / SLEEP_SLICE - 1.0;
    }
  }

  /** Requests in a trace. */
  function Starts(trace: seq<Event>): nat {
    if trace == [] then 0 else Starts(trace[..|trace| - 1]) + if trace[|trace| - 1].Started? then 1 else 0
  }

  lemma StartCounts(trace: seq<Event>, at: real)
    ensures Starts(trace + [Started(at)]) == Starts(trace) + 1
  {
    assert (trace + [Started(at)])[..|trace|] == trace;
  }

  lemma DeadlineCounts(trace: seq<Event>, until: real, streak: nat)
    ensures Starts(trace + [Persisted(until, streak)]) == Starts(trace)
  {
    assert (trace + [Persisted(until, streak)])[..|trace|] == trace;
  }

  // ---------------------------------------------------------------- runs over many invocations

  datatype Invocation = Invocation(settings: Settings, calls: seq<(bool, seq<Response>)>)

  /** One process: a new client on the same store, used until it is done or gives up. */
  method Invoke(world: World, invocation: Invocation) returns (sent: nat)
    requires world.Ok() && Usable(invocation.settings)
    modifies world
    ensures world.Ok() && old(world.trace) <= world.trace
    ensures Starts(world.trace) == Starts(old(world.trace)) + sent
    ensures invocation.settings.budget.Some? ==> sent <= invocation.settings.budget.value
  {
    var rpc := new Rpc(world, invocation.settings);
    for k := 0 to |invocation.calls|
      invariant rpc.Valid() && rpc.world == world && rpc.settings == invocation.settings
      invariant old(world.trace) <= world.trace && Starts(world.trace) == Starts(old(world.trace)) + rpc.calls
    {
      var outcome, used := rpc.Call(invocation.calls[k].0, invocation.calls[k].1);
    }
    sent := rpc.calls;
  }

  /** Any number of invocations, restarted one after another on one store, keep the whole history disciplined. */
  method Restarts(world: World, invocations: seq<Invocation>)
    requires world.Ok() && forall i :: 0 <= i < |invocations| ==> Usable(invocations[i].settings)
    modifies world
    ensures Disciplined(world.trace) && UpToDate(world.trace, world.until, world.now)
  {
    for k := 0 to |invocations|
      invariant world.Ok()
    {
      world.Tick();
      var sent := Invoke(world, invocations[k]);
    }
  }

  // ---------------------------------------------------------------- what discipline means

  /** From index `i` on, `probes` requests in a row are each throttled at a settled streak. */
  ghost predicate Outage(trace: seq<Event>, i: nat, probes: nat) {
    && i + 2 * probes <= |trace|
    && forall p :: i <= p < i + 2 * probes ==>
         if (p - i) % 2 == 0 then trace[p].Started? else trace[p].Persisted? && trace[p].streak >= SETTLED_STREAK
  }

  /** During an outage the probes are at least fifteen minutes apart: a fifth one comes an hour after the first. */
  lemma {:induction false} ProbesAreSpaced(trace: seq<Event>, i: nat, probes: nat)
    requires Disciplined(trace) && Outage(trace, i, probes)
    requires i + 2 * probes < |trace| && trace[i + 2 * probes].Started?
    ensures trace[i].Started? && trace[i + 2 * probes].at >= trace[i].at + PROBE_CEILING * probes as real
  {
    if probes > 0 {
      var last := i + 2 * (probes - 1);
      ProbesAreSpaced(trace, i, probes - 1);
      assert trace[last + 1].Persisted? && trace[last + 1].streak >= SETTLED_STREAK;
      ProbesSettle(trace[last + 1].streak);
      assert trace[last].at + PROBE_CEILING <= trace[last + 1].until <= trace[last + 2].at;
    }
  }
}
