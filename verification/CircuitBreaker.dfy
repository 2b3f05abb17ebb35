/**
 The circuit breaker of core/src/upstream/circuit_breaker.rs. Each public method is one
 atomic step that reads the clock once; counters are unbounded.
 */
module CircuitBreakers {

  datatype CircuitState = Closed | Open | HalfOpen

  datatype Config = Config(failureThreshold: nat, successThreshold: nat, timeout: nat)

  /** The value of a breaker; times are milliseconds on a monotonic clock. */
  datatype Breaker = Breaker(
    state: CircuitState,
    failures: nat,
    successes: nat,
    totalFailures: nat,
    totalSuccesses: nat,
    lastFailure: nat,
    lastChange: nat)

  function Max(a: nat, b: nat): nat {
    if a < b then b else a
  }

  function Elapsed(now: nat, since: nat): nat {
    if now < since then 0 else now - since
  }

  function Fresh(now: nat): Breaker {
    Breaker(Closed, 0, 0, 0, 0, 0, now)
  }

  /** `transition_to`: nothing but the swap when the state is already the new one. */
  function TransitionTo(b: Breaker, to: CircuitState, now: nat): Breaker {
    if b.state == to then b
    else b.(state := to, lastChange := now, successes := 0,
            failures := if to == Open then b.failures else 0)
  }

  /** `check_and_update_state_returning`: an open breaker half-opens after the timeout. */
  function Refresh(c: Config, b: Breaker, now: nat): Breaker {
    if b.state == Open && Elapsed(now, b.lastChange) >= c.timeout
    then b.(state := HalfOpen, lastChange := now, failures := 0, successes := 0)
    else b
  }

  function RecordSuccess(c: Config, b: Breaker, now: nat): Breaker {
    var b := b.(totalSuccesses := b.totalSuccesses + 1, failures := 0, successes := b.successes + 1);
    if b.state == HalfOpen && b.successes >= c.successThreshold then TransitionTo(b, Closed, now) else b
  }

  function RecordFailure(c: Config, b: Breaker, now: nat): Breaker {
    var b := b.(totalFailures := b.totalFailures + 1, successes := 0, failures := b.failures + 1, lastFailure := now);
    match b.state
    case Closed => if b.failures >= c.failureThreshold then TransitionTo(b, Open, now) else b
    case HalfOpen => TransitionTo(b, Open, now)
    case Open => b
  }

  function Reset(b: Breaker, now: nat): Breaker {
    TransitionTo(b, Closed, now).(failures := 0, successes := 0)
  }

  function ForceOpen(b: Breaker, now: nat): Breaker {
    TransitionTo(b, Open, now)
  }

  /** Whether a check at `now` lets a request through, told from the state before the check. */
  predicate CanExecuteAt(c: Config, b: Breaker, now: nat) {
    b.state == Open ==> Elapsed(now, b.lastChange) >= c.timeout
  }

  // ---- The breaker as an object ----

  class CircuitBreaker {
    const config: Config
    var state: CircuitState
    var failures: nat
    var successes: nat
    var totalFailures: nat
    var totalSuccesses: nat
    var lastFailure: nat
    var lastChange: nat

    function View(): Breaker
      reads this
    {
      Breaker(state, failures, successes, totalFailures, totalSuccesses, lastFailure, lastChange)
    }

    constructor (config: Config, now: nat)
      ensures this.config == config && View() == Fresh(now)
    {
      this.config := config;
      state, failures, successes := Closed, 0, 0;
      totalFailures, totalSuccesses := 0, 0;
      lastFailure, lastChange := 0, now;
    }

    method CheckState(now: nat) returns (current: CircuitState)
      modifies this
      ensures View() == Refresh(config, old(View()), now)
      ensures current == state
    {
      current := state;
      if current == Open {
        if Elapsed(now, lastChange) >= config.timeout {
          state := HalfOpen;
          lastChange := now;
          failures := 0;
          successes := 0;
          current := HalfOpen;
        }
      }
    }

    method CanExecute(now: nat) returns (ok: bool)
      modifies this
      ensures View() == Refresh(config, old(View()), now)
      ensures ok <==> CanExecuteAt(config, old(View()), now)
    {
      var current := CheckState(now);
      ok := match current case Closed => true case Open => false case HalfOpen => true;
    }

    method Transition(to: CircuitState, now: nat)
      modifies this
      ensures View() == TransitionTo(old(View()), to, now)
    {
      var from := state;
      state := to;
      if from != to {
        lastChange := now;
        match to {
          case Closed =>
            failures := 0;
            successes := 0;
          case Open =>
            successes := 0;
          case HalfOpen =>
            failures := 0;
            successes := 0;
        }
      }
    }

    method Succeed(now: nat)
      modifies this
      ensures View() == RecordSuccess(config, old(View()), now)
    {
      totalSuccesses := totalSuccesses + 1;
      failures := 0;
      successes := successes + 1;
      if state == HalfOpen {
        if successes >= config.successThreshold {
          Transition(Closed, now);
        }
      }
    }

    method Fail(now: nat)
      modifies this
      ensures View() == RecordFailure(config, old(View()), now)
    {
      totalFailures := totalFailures + 1;
      successes := 0;
      failures := failures + 1;
      lastFailure := now;
      match state {
        case Closed =>
          if failures >= config.failureThreshold {
            Transition(Open, now);
          }
        case HalfOpen =>
          Transition(Open, now);
        case Open =>
      }
    }

    method ResetClosed(now: nat)
      modifies this
      ensures View() == Reset(old(View()), now)
    {
      Transition(Closed, now);
      failures := 0;
      successes := 0;
    }

    method ForceToOpen(now: nat)
      modifies this
      ensures View() == ForceOpen(old(View()), now)
    {
      Transition(Open, now);
    }
  }
}

/** What a breaker's history says about its state, over every sequence of calls. */
module BreakerHistory {
  import opened CircuitBreakers

  datatype Call = Check | Success | Failure | ResetCall | ForceCall

  /** A call, when it was made, and the state it found and left. */
  datatype Event = Event(call: Call, at: nat, before: CircuitState, after: CircuitState)

  function Apply(c: Config, b: Breaker, call: Call, now: nat): Breaker {
    match call
    case Check => Refresh(c, b, now)
    case Success => RecordSuccess(c, b, now)
    case Failure => RecordFailure(c, b, now)
    case ResetCall => Reset(b, now)
    case ForceCall => ForceOpen(b, now)
  }

  /** `h` is what happened when a breaker new at `start` went through some calls to become `b`. */
  ghost predicate IsHistory(c: Config, start: nat, h: seq<Event>, b: Breaker) {
    if h == [] then b == Fresh(start)
    else
      var e := h[|h| - 1];
      exists p: Breaker :: IsHistory(c, start, h[..|h| - 1], p)
        && e.before == p.state && b == Apply(c, p, e.call, e.at) && e.after == b.state
  }

  /** The breaker before the last event. */
  lemma LastStep(c: Config, start: nat, h: seq<Event>, b: Breaker) returns (p: Breaker)
    requires IsHistory(c, start, h, b) && h != []
    ensures IsHistory(c, start, h[..|h| - 1], p)
    ensures var e := h[|h| - 1]; e.before == p.state && b == Apply(c, p, e.call, e.at) && e.after == b.state
  {
    hide Apply;
    var e := h[|h| - 1];
    p :| IsHistory(c, start, h[..|h| - 1], p)
      && e.before == p.state && b == Apply(c, p, e.call, e.at) && e.after == b.state;
  }

  /** The event starts both counters afresh. */
  predicate Restarts(e: Event) {
    e.call == ResetCall || (e.before != e.after && e.after != Open)
  }

  /** The failures since the last success, reset, or change to half-open or closed. */
  function FailureRun(h: seq<Event>): nat {
    if h == [] then 0
    else
      var e := h[|h| - 1];
      if e.call == Success || Restarts(e) then 0
      else FailureRun(h[..|h| - 1]) + if e.call == Failure then 1 else 0
  }

  /** The successes since the last failure, reset or change of state. */
  function SuccessRun(h: seq<Event>): nat {
    if h == [] then 0
    else
      var e := h[|h| - 1];
      if e.call == Failure || e.call == ResetCall || e.before != e.after then 0
      else SuccessRun(h[..|h| - 1]) + if e.call == Success then 1 else 0
  }

  /** How often `call` was made. */
  function Calls(h: seq<Event>, call: Call): nat {
    if h == [] then 0 else Calls(h[..|h| - 1], call) + if h[|h| - 1].call == call then 1 else 0
  }

  /** One call moves the counters as one event moves the runs. */
  lemma ApplyCounts(c: Config, p: Breaker, e: Event)
    requires e.before == p.state && e.after == Apply(c, p, e.call, e.at).state
    ensures var b := Apply(c, p, e.call, e.at);
            && b.failures == (if e.call == Success || Restarts(e) then 0
                              else p.failures + if e.call == Failure then 1 else 0)
            && b.successes == (if e.call == Failure || e.call == ResetCall || e.before != e.after then 0
                               else p.successes + if e.call == Success then 1 else 0)
            && b.totalFailures == p.totalFailures + (if e.call == Failure then 1 else 0)
            && b.totalSuccesses == p.totalSuccesses + (if e.call == Success then 1 else 0)
  {
  }

  /** The counters below their thresholds, and at most one of them above zero. */
  ghost predicate InRange(c: Config, b: Breaker) {
    && (b.failures == 0 || b.successes == 0)
    && (b.state == Closed ==> b.failures < Max(1, c.failureThreshold))
    && (b.state == HalfOpen ==> b.failures == 0 && b.successes < Max(1, c.successThreshold))
  }

  lemma ApplyKeepsRange(c: Config, b: Breaker, call: Call, now: nat)
    requires InRange(c, b)
    ensures InRange(c, Apply(c, b, call, now))
  {
  }

  /** The counters are exactly the runs and totals of the history, and stay in range. */
  lemma {:induction false} CountersTellHistory(c: Config, start: nat, h: seq<Event>, b: Breaker)
    requires IsHistory(c, start, h, b)
    ensures b.failures == FailureRun(h)
    ensures b.successes == SuccessRun(h)
    ensures b.totalFailures == Calls(h, Failure) && b.totalSuccesses == Calls(h, Success)
    ensures InRange(c, b)
  {
    if h == [] {
    } else {
      hide Apply, IsHistory;
      var e := h[|h| - 1];
      var p := LastStep(c, start, h, b);
      CountersTellHistory(c, start, h[..|h| - 1], p);
      ApplyCounts(c, p, e);
      ApplyKeepsRange(c, p, e.call, e.at);
    }
  }

  /** When the state last changed; `start` if it never did. */
  function LastChangeAt(h: seq<Event>, start: nat): nat {
    if h == [] then start
    else if h[|h| - 1].before != h[|h| - 1].after then h[|h| - 1].at
    else LastChangeAt(h[..|h| - 1], start)
  }

  /** When the last failure was recorded; 0 if there was none. */
  function LastFailureAt(h: seq<Event>): nat {
    if h == [] then 0
    else if h[|h| - 1].call == Failure then h[|h| - 1].at
    else LastFailureAt(h[..|h| - 1])
  }

  /** Both timestamps are those of the history: every change of state stamps its own time. */
  lemma {:induction false} TimesTellHistory(c: Config, start: nat, h: seq<Event>, b: Breaker)
    requires IsHistory(c, start, h, b)
    ensures b.lastChange == LastChangeAt(h, start)
    ensures b.lastFailure == LastFailureAt(h)
  {
    if h == [] {
    } else {
      hide Apply, IsHistory;
      var e := h[|h| - 1];
      var p := LastStep(c, start, h, b);
      TimesTellHistory(c, start, h[..|h| - 1], p);
      ApplyStamps(c, p, e.call, e.at);
    }
  }

  /** One call stamps a change of state, and a failure. */
  lemma ApplyStamps(c: Config, p: Breaker, call: Call, now: nat)
    ensures var b := Apply(c, p, call, now);
            && b.lastChange == (if b.state != p.state then now else p.lastChange)
            && b.lastFailure == (if call == Failure then now else p.lastFailure)
  {
  }

  /** The timeout has passed at `now` since the last change. */
  predicate TimedOut(c: Config, h: seq<Event>, start: nat, now: nat) {
    c.timeout == 0 || now >= LastChangeAt(h, start) + c.timeout
  }

  /**
   Every next state, told from the history alone. A check half-opens an open circuit exactly when the
   timeout has passed since it opened. A closed circuit opens on exactly the failure that completes the
   run, a half-open one on any failure, and it closes on exactly the success that completes its run.
   */
  lemma StateChangesOnThresholds(c: Config, start: nat, h: seq<Event>, p: Breaker, e: Event, b: Breaker)
    requires IsHistory(c, start, h, p)
    requires e.before == p.state && b == Apply(c, p, e.call, e.at) && e.after == b.state
    ensures e.call == Check ==>
              b.state == if p.state == Open && TimedOut(c, h, start, e.at) then HalfOpen else p.state
    ensures e.call == Success ==>
              b.state == if p.state == HalfOpen && SuccessRun(h) + 1 == Max(1, c.successThreshold) then Closed
                         else p.state
    ensures e.call == Failure ==>
              b.state == match p.state
                         case Closed => if FailureRun(h) + 1 == Max(1, c.failureThreshold) then Open else Closed
                         case HalfOpen => Open
                         case Open => Open
    ensures e.call == ResetCall ==> b.state == Closed
    ensures e.call == ForceCall ==> b.state == Open
  {
    CountersTellHistory(c, start, h, p);
    TimesTellHistory(c, start, h, p);
  }

  /** A check lets the request through exactly unless it finds and leaves the circuit open. */
  lemma CheckAnswersItsState(c: Config, start: nat, h: seq<Event>, p: Breaker, now: nat)
    requires IsHistory(c, start, h, p)
    ensures CanExecuteAt(c, p, now) <==> Apply(c, p, Check, now).state != Open
    ensures CanExecuteAt(c, p, now) <==> p.state != Open || TimedOut(c, h, start, now)
  {
    StateChangesOnThresholds(c, start, h, p,
      Event(Check, now, p.state, Apply(c, p, Check, now).state), Apply(c, p, Check, now));
  }

  // ---- Probation ----

  /** The event is a check that half-opens the circuit once it has been open for the timeout. */
  ghost predicate StartsProbation(c: Config, h: seq<Event>, start: nat, k: nat)
    requires k < |h|
  {
    h[k].call == Check && h[k].before == Open && h[k].after == HalfOpen && TimedOut(c, h[..k], start, h[k].at)
  }

  /** From event `k` on there were only checks and successes, all of which found the circuit half-open. */
  predicate OnProbationSince(h: seq<Event>, k: nat) {
    forall m :: k < m < |h| ==> h[m].before == HalfOpen && (h[m].call == Check || h[m].call == Success)
  }

  /** A half-open circuit: the late check that started it, and only checks and successes since. */
  lemma {:induction false} HalfOpenSince(c: Config, start: nat, h: seq<Event>, b: Breaker) returns (k: nat)
    requires IsHistory(c, start, h, b) && b.state == HalfOpen
    ensures k < |h| && StartsProbation(c, h, start, k) && OnProbationSince(h, k)
    ensures Calls(h[k + 1..], Success) == b.successes
  {
    hide Apply, StartsProbation, IsHistory, TimedOut;
    OnlyClosedIsNew(c, start, h, b);
    var before, e := h[..|h| - 1], h[|h| - 1];
    var p := LastStep(c, start, h, b);
    StateChangesOnThresholds(c, start, before, p, e, b);
    CountersTellHistory(c, start, before, p);
    ApplyCounts(c, p, e);
    if p.state == HalfOpen {
      k := HalfOpenSince(c, start, before, p);
      ProbationSnoc(c, before, start, k, e);
      assert before + [e] == h;
    } else {
      k := |h| - 1;
      ProbationBegins(c, h, start);
    }
  }

  lemma OnlyClosedIsNew(c: Config, start: nat, h: seq<Event>, b: Breaker)
    requires IsHistory(c, start, h, b)
    ensures h == [] ==> b.state == Closed
  {
  }

  lemma ProbationBegins(c: Config, h: seq<Event>, start: nat)
    requires h != []
    requires h[|h| - 1].call == Check && h[|h| - 1].before == Open && h[|h| - 1].after == HalfOpen
    requires TimedOut(c, h[..|h| - 1], start, h[|h| - 1].at)
    ensures StartsProbation(c, h, start, |h| - 1)
  {
  }

  lemma ProbationSnoc(c: Config, h: seq<Event>, start: nat, k: nat, e: Event)
    requires k < |h| && StartsProbation(c, h, start, k)
    ensures StartsProbation(c, h + [e], start, k)
    ensures Calls((h + [e])[k + 1..], Success) == Calls(h[k + 1..], Success) + if e.call == Success then 1 else 0
  {
    var all := h + [e];
    assert all[..k] == h[..k];
    var tail := all[k + 1..];
    assert tail[..|tail| - 1] == h[k + 1..] && tail[|tail| - 1] == e;
  }

  /**
   An open circuit closes without a reset only through probation: after it had been open for the whole
   timeout a check half-opened it, and from that check to the closing call there were exactly as many
   successes as the threshold asks for, with no failure among them.
   */
  lemma ClosingNeedsProbation(c: Config, start: nat, h: seq<Event>, b: Breaker) returns (k: nat)
    requires IsHistory(c, start, h, b) && h != []
    requires h[|h| - 1].before != Closed && h[|h| - 1].after == Closed && h[|h| - 1].call != ResetCall
    ensures k + 1 < |h| && StartsProbation(c, h, start, k) && OnProbationSince(h, k)
    ensures Calls(h[k + 1..], Success) == Max(1, c.successThreshold)
    ensures h[|h| - 1].before == HalfOpen && h[|h| - 1].call == Success
  {
    hide Apply, StartsProbation, IsHistory, TimedOut;
    var before, e := h[..|h| - 1], h[|h| - 1];
    var p := LastStep(c, start, h, b);
    StateChangesOnThresholds(c, start, before, p, e, b);
    CountersTellHistory(c, start, before, p);
    k := HalfOpenSince(c, start, before, p);
    ProbationSnoc(c, before, start, k, e);
    assert before + [e] == h;
  }

  /** Any failure on probation opens the circuit again, for the whole timeout from that failure on. */
  lemma ProbationFails(c: Config, start: nat, h: seq<Event>, p: Breaker, at: nat, later: nat)
    requires IsHistory(c, start, h, p) && p.state == HalfOpen
    ensures var b := Apply(c, p, Failure, at);
            b.state == Open && (at <= later < at + c.timeout ==> !CanExecuteAt(c, b, later))
  {
    var b := Apply(c, p, Failure, at);
    var e := Event(Failure, at, p.state, b.state);
    assert (h + [e])[..|h|] == h;
    StateChangesOnThresholds(c, start, h, p, e, b);
    TimesTellHistory(c, start, h + [e], b);
  }

  // ---- The open period ----

  datatype Timed = Timed(call: Call, at: nat)

  /** Times do not run backwards, starting at `from`. */
  ghost predicate Monotone(from: nat, calls: seq<Timed>) {
    && (forall i :: 0 <= i < |calls| ==> from <= calls[i].at)
    && (forall i, j :: 0 <= i < j < |calls| ==> calls[i].at <= calls[j].at)
  }

  function ApplyAll(c: Config, b: Breaker, calls: seq<Timed>): Breaker {
    if calls == [] then b
    else
      var last := calls[|calls| - 1];
      Apply(c, ApplyAll(c, b, calls[..|calls| - 1]), last.call, last.at)
  }

  /** No reset, and no check once the timeout has passed. */
  ghost predicate StaysOpenDuring(c: Config, since: nat, calls: seq<Timed>) {
    forall i :: 0 <= i < |calls| ==>
      calls[i].call != ResetCall && (calls[i].call == Check ==> calls[i].at < since + c.timeout)
  }

  /**
   The deadline does not move: whatever successes, failures and forced openings follow, a
   breaker opened at `b.lastChange` stays open with that timestamp until it is reset or checked
   after the timeout, so a check at `now` says yes exactly when the full timeout has passed.
   */
  lemma {:induction false} OpenUntilTimeout(c: Config, b: Breaker, calls: seq<Timed>, now: nat)
    requires b.state == Open && Monotone(b.lastChange, calls)
    requires StaysOpenDuring(c, b.lastChange, calls)
    ensures ApplyAll(c, b, calls).state == Open && ApplyAll(c, b, calls).lastChange == b.lastChange
    ensures now >= b.lastChange ==>
              (CanExecuteAt(c, ApplyAll(c, b, calls), now) <==> now >= b.lastChange + c.timeout)
  {
    if calls != [] {
      OpenUntilTimeout(c, b, calls[..|calls| - 1], now);
    }
  }

  /**
   Every check before the deadline is refused: along any monotone run of calls without a reset
   from the moment of opening, the calls before a check at `now < opened + timeout` leave the
   breaker open.
   */
  lemma RefusedBeforeDeadline(c: Config, b: Breaker, calls: seq<Timed>, now: nat)
    requires b.state == Open && Monotone(b.lastChange, calls + [Timed(Check, now)])
    requires forall i :: 0 <= i < |calls| ==> calls[i].call != ResetCall
    requires now < b.lastChange + c.timeout
    ensures !CanExecuteAt(c, ApplyAll(c, b, calls), now)
    ensures ApplyAll(c, b, calls + [Timed(Check, now)]) == ApplyAll(c, b, calls)
  {
    var all := calls + [Timed(Check, now)];
    assert all[..|all| - 1] == calls;
    forall i | 0 <= i < |calls|
      ensures b.lastChange <= calls[i].at <= now
    {
      assert all[i] == calls[i] && all[|calls|] == Timed(Check, now);
    }
    assert forall i, j :: 0 <= i < j < |calls| ==> all[i] == calls[i] && all[j] == calls[j];
    OpenUntilTimeout(c, b, calls, now);
  }
}
