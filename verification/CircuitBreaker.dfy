/** The circuit breaker (resilience/circuitbreaker.go).  Calls overlap freely: the two
    critical sections of a call, beforeCall and afterCall, are separate atomic steps, so a
    run is any sequence of such steps under a clock that never goes back.  A call admitted
    long ago may complete in any state. */
module CircuitBreaker {

  datatype State = Closed | Open | HalfOpen

  datatype Settings = Settings(threshold: nat, cooldown: int)

  /** The fields guarded by the mutex. */
  datatype Breaker = Breaker(state: State, failures: nat, openedAt: int, probeInFlight: bool)

  const Fresh := Breaker(Closed, 0, 0, false)

  /** One critical section, with the time it reads from the clock and the call it belongs to, which the
      breaker itself does not know.  `Query` is State(); `After` carries whether the classified outcome
      is a failure. */
  datatype Step = Before(time: int, call: nat) | After(time: int, failure: bool, call: nat) | Query(time: int)

  predicate ValidSettings(cfg: Settings) {
    0 < cfg.threshold && 0 < cfg.cooldown
  }

  // ---- the critical sections ----

  function Refresh(cfg: Settings, b: Breaker, now: int): Breaker {
    if b.state == Open && now - b.openedAt >= cfg.cooldown
    then b.(state := HalfOpen, probeInFlight := false)
    else b
  }

  function Admits(cfg: Settings, b: Breaker, now: int): bool {
    var r := Refresh(cfg, b, now);
    r.state == Closed || (r.state == HalfOpen && !r.probeInFlight)
  }

  function BeforeStep(cfg: Settings, b: Breaker, now: int): Breaker {
    var r := Refresh(cfg, b, now);
    if r.state == HalfOpen then r.(probeInFlight := true) else r
  }

  /** Does recording this outcome call trip()? */
  function Trips(cfg: Settings, b: Breaker, failure: bool): bool {
    failure && (b.state == HalfOpen || b.failures + 1 >= cfg.threshold)
  }

  function AfterStep(cfg: Settings, b: Breaker, now: int, failure: bool): Breaker {
    if b.state == HalfOpen then
      if failure then b.(probeInFlight := false, openedAt := now, state := Open)
      else b.(probeInFlight := false, failures := 0, state := Closed)
    else if failure then
      if b.failures + 1 >= cfg.threshold then b.(failures := b.failures + 1, openedAt := now, state := Open)
      else b.(failures := b.failures + 1)
    else b.(failures := 0)
  }

  function Next(cfg: Settings, b: Breaker, s: Step): Breaker {
    match s
    case Before(t, _) => BeforeStep(cfg, b, t)
    case After(t, failure, _) => AfterStep(cfg, b, t, failure)
    case Query(t) => Refresh(cfg, b, t)
  }

  /** What the state-change hook reports for a step. */
  function Report(b: Breaker, b': Breaker): seq<(State, State)> {
    if b.state == b'.state then [] else [(b.state, b'.state)]
  }

  // ---- runs ----

  /** The breaker before step i. */
  function At(cfg: Settings, steps: seq<Step>, i: nat): Breaker
    requires i <= |steps|
  {
    if i == 0 then Fresh else Next(cfg, At(cfg, steps, i - 1), steps[i - 1])
  }

  predicate Monotone(steps: seq<Step>) {
    forall i, j :: 0 <= i <= j < |steps| ==> steps[i].time <= steps[j].time
  }

  predicate Admitted(cfg: Settings, steps: seq<Step>, i: nat)
    requires i < |steps|
  {
    steps[i].Before? && Admits(cfg, At(cfg, steps, i), steps[i].time)
  }

  predicate Tripped(cfg: Settings, steps: seq<Step>, i: nat)
    requires i < |steps|
  {
    steps[i].After? && Trips(cfg, At(cfg, steps, i), steps[i].failure)
  }

  // ---- the cooldown ----

  /** Once tripped at step i, and for the rest of the run, the breaker is open until a full
      cooldown after the latest trip. */
  lemma {:induction false} CoolsDown(cfg: Settings, steps: seq<Step>, i: nat, j: nat)
    requires ValidSettings(cfg) && Monotone(steps)
    requires i < j <= |steps| && Tripped(cfg, steps, i)
    ensures
      var b := At(cfg, steps, j);
      && steps[i].time <= b.openedAt <= steps[j - 1].time
      && (b.state != Open ==> steps[i].time + cfg.cooldown <= steps[j - 1].time)
    decreases j - i
  {
    if j > i + 1 {
      CoolsDown(cfg, steps, i, j - 1);
      assert steps[j - 2].time <= steps[j - 1].time;
    }
  }

  /** No call is admitted within the cooldown of any earlier trip. */
  lemma NoAdmissionWithinCooldown(cfg: Settings, steps: seq<Step>, i: nat, j: nat)
    requires ValidSettings(cfg) && Monotone(steps)
    requires i < j < |steps| && Tripped(cfg, steps, i) && Admitted(cfg, steps, j)
    ensures steps[i].time + cfg.cooldown <= steps[j].time
  {
    CoolsDown(cfg, steps, i, j);
    assert steps[j - 1].time <= steps[j].time;
  }

  // ---- the single probe ----

  /** Half-open with a probe admitted: until the episode ends the probe mark stays, so
      nothing else is admitted. */
  lemma {:induction false} ProbeMarkStays(cfg: Settings, steps: seq<Step>, i: nat, j: nat)
    requires i < j <= |steps|
    requires Admitted(cfg, steps, i)
    requires forall k :: i < k <= j ==> At(cfg, steps, k).state == HalfOpen
    ensures At(cfg, steps, j).probeInFlight
    decreases j - i
  {
    if j > i + 1 {
      ProbeMarkStays(cfg, steps, i, j - 1);
      assert At(cfg, steps, j - 1).state == HalfOpen;
      assert At(cfg, steps, j).state == HalfOpen;
    } else {
      assert At(cfg, steps, i + 1).state == HalfOpen;
    }
  }

  /** A half-open episode admits at most one call: between two calls admitted into half-open
      the breaker has left half-open. */
  lemma OneProbePerEpisode(cfg: Settings, steps: seq<Step>, i: nat, j: nat)
    requires i < j < |steps|
    requires Admitted(cfg, steps, i) && Admitted(cfg, steps, j)
    requires At(cfg, steps, i + 1).state == HalfOpen
    ensures exists k :: i + 1 < k <= j && At(cfg, steps, k).state != HalfOpen
  {
    if forall k :: i + 1 < k <= j ==> At(cfg, steps, k).state == HalfOpen {
      ProbeMarkStays(cfg, steps, i, j);
      assert At(cfg, steps, j).state == HalfOpen;
    }
  }

  /** The first trip after step i, when the breaker is half-open after step i and has left
      half-open before step j without closing. */
  lemma {:induction false} LeavesByTripping(cfg: Settings, steps: seq<Step>, i: nat, j: nat) returns (k: nat)
    requires i < j <= |steps|
    requires At(cfg, steps, i).state == HalfOpen && At(cfg, steps, j).state != HalfOpen
    requires forall m :: i <= m <= j ==> At(cfg, steps, m).state != Closed
    ensures i <= k < j && Tripped(cfg, steps, k)
    decreases j - i
  {
    if At(cfg, steps, j - 1).state != HalfOpen {
      k := LeavesByTripping(cfg, steps, i, j - 1);
    } else {
      k := j - 1;
    }
  }

  /** Two calls admitted between leaving closed and returning to it start at least a cooldown
      apart, whatever late completions happen in between. */
  lemma ProbesAreCooldownApart(cfg: Settings, steps: seq<Step>, i: nat, j: nat)
    requires ValidSettings(cfg) && Monotone(steps)
    requires i < j < |steps|
    requires Admitted(cfg, steps, i) && Admitted(cfg, steps, j)
    requires forall m :: i < m <= j ==> At(cfg, steps, m).state != Closed
    ensures steps[i].time + cfg.cooldown <= steps[j].time
  {
    assert At(cfg, steps, i + 1).state == HalfOpen;
    OneProbePerEpisode(cfg, steps, i, j);
    var k :| i + 1 < k <= j && At(cfg, steps, k).state != HalfOpen;
    var trip := LeavesByTripping(cfg, steps, i + 1, k);
    NoAdmissionWithinCooldown(cfg, steps, trip, j);
    assert steps[i].time <= steps[trip].time;
  }

  // ---- counting failures while closed ----

  /** The failures recorded since the last success, or since the breaker last became closed. */
  function TrailingFailures(cfg: Settings, steps: seq<Step>, i: nat): nat
    requires i <= |steps|
  {
    if i == 0 then 0
    else
      var s := steps[i - 1];
      if At(cfg, steps, i - 1).state != Closed then 0
      else if !s.After? then TrailingFailures(cfg, steps, i - 1)
      else if s.failure then TrailingFailures(cfg, steps, i - 1) + 1
      else 0
  }

  lemma {:induction false} ClosedCountsFailures(cfg: Settings, steps: seq<Step>, i: nat)
    requires ValidSettings(cfg) && i <= |steps|
    ensures
      var b := At(cfg, steps, i);
      && (b.state == Closed ==> b.failures == TrailingFailures(cfg, steps, i) < cfg.threshold)
      && (b.probeInFlight ==> b.state == HalfOpen)
  {
    if i > 0 {
      ClosedCountsFailures(cfg, steps, i - 1);
    }
  }

  /** The breaker leaves closed exactly when the trailing failures reach the threshold. */
  lemma LeavesClosedIff(cfg: Settings, steps: seq<Step>, i: nat)
    requires ValidSettings(cfg) && i < |steps|
    requires At(cfg, steps, i).state == Closed
    ensures At(cfg, steps, i + 1).state != Closed <==> TrailingFailures(cfg, steps, i + 1) == cfg.threshold
  {
    ClosedCountsFailures(cfg, steps, i);
  }

  // ---- counting failures in every state ----

  predicate Success(s: Step) {
    s.After? && !s.failure
  }

  /** The failures recorded by steps a, ..., i - 1, but for those that came while half-open. */
  function FailuresBetween(cfg: Settings, steps: seq<Step>, a: nat, i: nat): nat
    requires a <= i <= |steps|
    decreases i
  {
    if i == a then 0
    else
      var s := steps[i - 1];
      var counts := s.After? && s.failure && At(cfg, steps, i - 1).state != HalfOpen;
      FailuresBetween(cfg, steps, a, i - 1) + if counts then 1 else 0
  }

  /** In every state the counter is the failures since the last success, wherever that was recorded; a failure in
      half-open trips without being counted. */
  lemma {:induction false} CounterIsTrailingFailures(cfg: Settings, steps: seq<Step>, a: nat, i: nat)
    requires a <= i <= |steps|
    requires a == 0 || Success(steps[a - 1])
    requires forall k :: a <= k < i ==> !Success(steps[k])
    ensures At(cfg, steps, i).failures == FailuresBetween(cfg, steps, a, i)
    decreases i
  {
    if i > a {
      CounterIsTrailingFailures(cfg, steps, a, i - 1);
    }
  }

  /** What a completion does in each state, written out: half-open, the outcome decides; otherwise a failure opens the
      breaker if it is number `threshold` since the last success, and a success only clears the count. */
  lemma OutcomeDecides(cfg: Settings, steps: seq<Step>, i: nat)
    requires i < |steps| && steps[i].After?
    ensures
      var b, b' := At(cfg, steps, i), At(cfg, steps, i + 1);
      && (b.state == HalfOpen && steps[i].failure ==>
            b'.state == Open && b'.openedAt == steps[i].time && b'.failures == b.failures)
      && (b.state == HalfOpen && !steps[i].failure ==> b' == Breaker(Closed, 0, b.openedAt, false))
      && (b.state != HalfOpen && !steps[i].failure ==> b' == Breaker(b.state, 0, b.openedAt, b.probeInFlight))
      && (b.state != HalfOpen && steps[i].failure && b.failures + 1 < cfg.threshold ==>
            b' == Breaker(b.state, b.failures + 1, b.openedAt, b.probeInFlight))
      && (b.state != HalfOpen && steps[i].failure && b.failures + 1 >= cfg.threshold ==>
            b' == Breaker(Open, b.failures + 1, steps[i].time, b.probeInFlight))
  {
    var b := At(cfg, steps, i);
    assert At(cfg, steps, i + 1) == AfterStep(cfg, b, steps[i].time, steps[i].failure);
  }

  // ---- the first call after the cooldown ----

  /** Between a trip at step i and step j nothing was admitted and nothing tripped again. */
  predicate Quiet(cfg: Settings, steps: seq<Step>, i: nat, j: nat)
    requires j <= |steps|
  {
    forall k :: i < k < j ==> !Admitted(cfg, steps, k) && !Tripped(cfg, steps, k)
  }

  lemma {:induction false} QuietUntilCooldown(cfg: Settings, steps: seq<Step>, i: nat, j: nat)
    requires ValidSettings(cfg) && Monotone(steps)
    requires i < j <= |steps| && Tripped(cfg, steps, i) && Quiet(cfg, steps, i, j)
    ensures
      var b := At(cfg, steps, j);
      && (b.state == Open ==> b.openedAt == steps[i].time)
      && (b.state != Open ==> steps[i].time + cfg.cooldown <= steps[j - 1].time && !b.probeInFlight)
    decreases j - i
  {
    if j > i + 1 {
      QuietUntilCooldown(cfg, steps, i, j - 1);
      assert steps[j - 2].time <= steps[j - 1].time;
      assert !Admitted(cfg, steps, j - 1) && !Tripped(cfg, steps, j - 1);
    }
  }

  /** After a trip, the first calls are refused until exactly one cooldown has passed, and the first call from then on
      is admitted. */
  lemma AdmitsAfterCooldown(cfg: Settings, steps: seq<Step>, i: nat, j: nat)
    requires ValidSettings(cfg) && Monotone(steps)
    requires i < j < |steps| && Tripped(cfg, steps, i) && Quiet(cfg, steps, i, j) && steps[j].Before?
    ensures Admitted(cfg, steps, j) <==> steps[i].time + cfg.cooldown <= steps[j].time
  {
    QuietUntilCooldown(cfg, steps, i, j);
    assert steps[j - 1].time <= steps[j].time;
  }

  // ---- reported transitions ----

  function Reported(cfg: Settings, steps: seq<Step>, i: nat): seq<(State, State)>
    requires i <= |steps|
  {
    if i == 0 then []
    else Reported(cfg, steps, i - 1) + Report(At(cfg, steps, i - 1), At(cfg, steps, i))
  }

  predicate LegalTransition(t: (State, State)) {
    t == (Closed, Open) || t == (Open, HalfOpen) || t == (HalfOpen, Open) || t == (HalfOpen, Closed)
  }

  /** A walk over the legal transitions from `from` to `to`. */
  predicate Path(ts: seq<(State, State)>, from: State, to: State) {
    if ts == [] then from == to
    else
      var last := ts[|ts| - 1];
      LegalTransition(last) && last.1 == to && Path(ts[..|ts| - 1], from, last.0)
  }

  lemma PathSnoc(ts: seq<(State, State)>, from: State, t: (State, State))
    requires Path(ts, from, t.0) && LegalTransition(t)
    ensures Path(ts + [t], from, t.1)
  {
    assert (ts + [t])[..|ts|] == ts;
  }

  lemma StepIsLegal(cfg: Settings, steps: seq<Step>, i: nat)
    requires ValidSettings(cfg) && i < |steps|
    ensures
      var b, b' := At(cfg, steps, i), At(cfg, steps, i + 1);
      b.state == b'.state || LegalTransition((b.state, b'.state))
  {
  }

  /** The hook sees a path over closed, open and half-open that starts closed and ends in the
      current state. */
  lemma {:induction false} ReportsArePaths(cfg: Settings, steps: seq<Step>, i: nat)
    requires ValidSettings(cfg) && i <= |steps|
    ensures Path(Reported(cfg, steps, i), Closed, At(cfg, steps, i).state)
  {
    if i > 0 {
      ReportsArePaths(cfg, steps, i - 1);
      StepIsLegal(cfg, steps, i - 1);
      ReportExtendsPath(Reported(cfg, steps, i - 1), At(cfg, steps, i - 1), At(cfg, steps, i));
    }
  }

  lemma ReportExtendsPath(ts: seq<(State, State)>, b: Breaker, b': Breaker)
    requires Path(ts, Closed, b.state)
    requires b.state == b'.state || LegalTransition((b.state, b'.state))
    ensures Path(ts + Report(b, b'), Closed, b'.state)
  {
    if b.state == b'.state {
      assert ts + [] == ts;
    } else {
      PathSnoc(ts, Closed, (b.state, b'.state));
    }
  }

  // ---- probes in flight ----

  /** Every call begins once, and completes at most once, after it was admitted. */
  ghost predicate WellFormed(cfg: Settings, steps: seq<Step>) {
    && (forall i, j :: 0 <= i < j < |steps| && steps[i].Before? && steps[j].Before? ==> steps[i].call != steps[j].call)
    && (forall j :: 0 <= j < |steps| && steps[j].After? ==> Started(cfg, steps, j))
    && (forall i, j :: 0 <= i < j < |steps| && steps[i].After? && steps[j].After? ==> steps[i].call != steps[j].call)
  }

  /** The completion at step j is that of an admitted call. */
  ghost predicate Started(cfg: Settings, steps: seq<Step>, j: nat)
    requires j < |steps| && steps[j].After?
  {
    exists i :: 0 <= i < j && Admitted(cfg, steps, i) && steps[i].call == steps[j].call
  }

  /** The call admitted at step i completes at step k. */
  predicate Completes(steps: seq<Step>, i: nat, k: nat)
    requires i < |steps| && k < |steps|
  {
    steps[i].Before? && steps[k].After? && steps[k].call == steps[i].call
  }

  /** A call admitted into half-open. */
  predicate Probe(cfg: Settings, steps: seq<Step>, i: nat)
    requires i < |steps|
  {
    Admitted(cfg, steps, i) && At(cfg, steps, i + 1).state == HalfOpen
  }

  /** The call of step i is a probe that has not completed before step n. */
  ghost predicate ProbeInFlight(cfg: Settings, steps: seq<Step>, i: nat, n: nat)
    requires n <= |steps|
  {
    i < n && Probe(cfg, steps, i) && forall k :: i < k < n ==> !Completes(steps, i, k)
  }

  /** Only a completion leaves half-open. */
  lemma {:induction false} LeavesHalfOpen(cfg: Settings, steps: seq<Step>, i: nat, j: nat) returns (k: nat)
    requires i < j <= |steps| && At(cfg, steps, i).state == HalfOpen && At(cfg, steps, j).state != HalfOpen
    ensures i <= k < j && steps[k].After? && forall m :: i <= m <= k ==> At(cfg, steps, m).state == HalfOpen
    decreases j - i
  {
    if At(cfg, steps, i + 1).state != HalfOpen {
      k := i;
    } else {
      k := LeavesHalfOpen(cfg, steps, i + 1, j);
    }
  }

  /** Two probes are in flight only if, in the half-open episode of the first, a call other than that probe
      completed. */
  lemma TwoProbesNeedLateCompletion(cfg: Settings, steps: seq<Step>, i: nat, j: nat, n: nat) returns (k: nat)
    requires i < j < n <= |steps| && ProbeInFlight(cfg, steps, i, n) && ProbeInFlight(cfg, steps, j, n)
    ensures i < k < j && steps[k].After? && steps[k].call != steps[i].call
    ensures forall m :: i < m <= k ==> At(cfg, steps, m).state == HalfOpen
  {
    OneProbePerEpisode(cfg, steps, i, j);
    var left :| i + 1 < left <= j && At(cfg, steps, left).state != HalfOpen;
    k := LeavesHalfOpen(cfg, steps, i + 1, left);
    assert !Completes(steps, i, k);
  }

  /** The breaker is half-open again at j after it was not: it tripped in between. */
  lemma {:induction false} ReturnsByTripping(cfg: Settings, steps: seq<Step>, i: nat, j: nat) returns (k: nat)
    requires i < j <= |steps| && At(cfg, steps, i).state == Closed && At(cfg, steps, j).state != Closed
    ensures i <= k < j && Tripped(cfg, steps, k)
    decreases j - i
  {
    if At(cfg, steps, j - 1).state != Closed {
      k := ReturnsByTripping(cfg, steps, i, j - 1);
    } else {
      k := j - 1;
    }
  }

  /** Any two probes of a run start at least a cooldown apart, also across episodes of being closed. */
  lemma AllProbesAreCooldownApart(cfg: Settings, steps: seq<Step>, i: nat, j: nat)
    requires ValidSettings(cfg) && Monotone(steps)
    requires i < j < |steps| && Probe(cfg, steps, i) && Probe(cfg, steps, j)
    ensures steps[i].time + cfg.cooldown <= steps[j].time
  {
    if forall m :: i < m <= j ==> At(cfg, steps, m).state != Closed {
      ProbesAreCooldownApart(cfg, steps, i, j);
    } else {
      var m :| i < m <= j && At(cfg, steps, m).state == Closed;
      var trip := ReturnsByTripping(cfg, steps, m, j + 1);
      assert trip != j;
      NoAdmissionWithinCooldown(cfg, steps, trip, j);
      assert steps[i].time <= steps[trip].time;
    }
  }

  /** Every call has completed when a cooldown has passed since it was admitted. */
  ghost predicate Prompt(cfg: Settings, steps: seq<Step>) {
    forall i, n :: 0 <= i < n < |steps| && Admitted(cfg, steps, i) && steps[i].time + cfg.cooldown <= steps[n].time ==>
      exists k :: i < k < n && Completes(steps, i, k)
  }

  /** If calls take less than a cooldown, at most one probe is in flight at any point of the run. */
  lemma PromptCallsProbeAlone(cfg: Settings, steps: seq<Step>, i: nat, j: nat, n: nat)
    requires ValidSettings(cfg) && Monotone(steps) && Prompt(cfg, steps) && n <= |steps|
    requires ProbeInFlight(cfg, steps, i, n) && ProbeInFlight(cfg, steps, j, n)
    ensures i == j
  {
    if i != j {
      var a, b := if i < j then i else j, if i < j then j else i;
      PromptProbeIsOver(cfg, steps, a, b);
    }
  }

  lemma PromptProbeIsOver(cfg: Settings, steps: seq<Step>, i: nat, j: nat)
    requires ValidSettings(cfg) && Monotone(steps) && Prompt(cfg, steps)
    requires i < j < |steps| && Probe(cfg, steps, i) && Probe(cfg, steps, j)
    ensures exists k :: i < k < j && Completes(steps, i, k)
  {
    AllProbesAreCooldownApart(cfg, steps, i, j);
  }

  // ---- a late completion lets a second probe start ----

  lemma {:induction false} AtPrefix(cfg: Settings, steps: seq<Step>, more: seq<Step>, i: nat)
    requires i <= |steps|
    ensures At(cfg, steps + more, i) == At(cfg, steps, i)
  {
    if i > 0 {
      AtPrefix(cfg, steps, more, i - 1);
      assert (steps + more)[i - 1] == steps[i - 1];
    }
  }

  lemma AdmittedPrefix(cfg: Settings, steps: seq<Step>, s: Step, i: nat)
    requires i < |steps|
    ensures Admitted(cfg, steps + [s], i) <==> Admitted(cfg, steps, i)
    ensures Probe(cfg, steps + [s], i) <==> Probe(cfg, steps, i)
  {
    AtPrefix(cfg, steps, [s], i);
    AtPrefix(cfg, steps, [s], i + 1);
    assert (steps + [s])[i] == steps[i];
  }

  /** A run that could happen. */
  ghost predicate Possible(cfg: Settings, steps: seq<Step>) {
    Monotone(steps) && WellFormed(cfg, steps)
  }

  predicate NotBefore(steps: seq<Step>, t: int) {
    forall i :: 0 <= i < |steps| ==> steps[i].time <= t
  }

  predicate Unused(steps: seq<Step>, c: nat) {
    forall i :: 0 <= i < |steps| && !steps[i].Query? ==> steps[i].call != c
  }

  lemma {:induction false} FreshCall(steps: seq<Step>) returns (c: nat)
    ensures forall i :: 0 <= i < |steps| && !steps[i].Query? ==> steps[i].call < c
  {
    if steps == [] {
      c := 0;
    } else {
      var last := steps[|steps| - 1];
      c := FreshCall(steps[..|steps| - 1]);
      if !last.Query? && last.call >= c {
        c := last.call + 1;
      }
    }
  }

  lemma StartedPrefix(cfg: Settings, steps: seq<Step>, s: Step)
    requires WellFormed(cfg, steps)
    ensures forall j :: 0 <= j < |steps| && steps[j].After? ==> Started(cfg, steps + [s], j)
  {
    forall j | 0 <= j < |steps| && steps[j].After? ensures Started(cfg, steps + [s], j) {
      assert Started(cfg, steps, j);
      var i :| 0 <= i < j && Admitted(cfg, steps, i) && steps[i].call == steps[j].call;
      AdmittedPrefix(cfg, steps, s, i);
    }
  }

  lemma AddBefore(cfg: Settings, steps: seq<Step>, t: int, c: nat)
    requires Possible(cfg, steps) && NotBefore(steps, t) && Unused(steps, c)
    ensures Possible(cfg, steps + [Before(t, c)])
    ensures At(cfg, steps + [Before(t, c)], |steps| + 1) == BeforeStep(cfg, At(cfg, steps, |steps|), t)
    ensures Admitted(cfg, steps + [Before(t, c)], |steps|) <==> Admits(cfg, At(cfg, steps, |steps|), t)
  {
    StartedPrefix(cfg, steps, Before(t, c));
    AtPrefix(cfg, steps, [Before(t, c)], |steps|);
    hide At, Admitted, Started;
  }

  lemma AddAfter(cfg: Settings, steps: seq<Step>, t: int, failure: bool, i: nat)
    requires Possible(cfg, steps) && NotBefore(steps, t) && i < |steps| && Admitted(cfg, steps, i)
    requires forall k :: 0 <= k < |steps| ==> !Completes(steps, i, k)
    ensures Possible(cfg, steps + [After(t, failure, steps[i].call)])
    ensures At(cfg, steps + [After(t, failure, steps[i].call)], |steps| + 1) == AfterStep(cfg, At(cfg, steps, |steps|), t, failure)
  {
    var s := After(t, failure, steps[i].call);
    StartedPrefix(cfg, steps, s);
    AtPrefix(cfg, steps, [s], |steps|);
    AdmittedPrefix(cfg, steps, s, i);
    var steps' := steps + [s];
    assert Started(cfg, steps', |steps|) by {
      assert Admitted(cfg, steps', i) && steps'[i].call == steps'[|steps|].call;
    }
    hide At, Started, Admitted;
    forall k | 0 <= k < |steps| && steps[k].After? ensures steps'[k].call != s.call {
      assert !Completes(steps, i, k);
    }
  }

  /** A probe stays in flight over a step that does not complete it. */
  lemma StaysInFlight(cfg: Settings, steps: seq<Step>, s: Step, i: nat)
    requires ProbeInFlight(cfg, steps, i, |steps|) && (s.After? ==> s.call != steps[i].call)
    ensures ProbeInFlight(cfg, steps + [s], i, |steps| + 1)
  {
    AdmittedPrefix(cfg, steps, s, i);
    forall k | i < k < |steps| + 1 ensures !Completes(steps + [s], i, k) {
      assert k < |steps| ==> !Completes(steps, i, k);
    }
  }

  /** One more call begins and fails, with the probe of step i in flight all the while. */
  lemma FailOnce(cfg: Settings, steps: seq<Step>, i: nat, t: int) returns (steps': seq<Step>)
    requires Possible(cfg, steps) && ProbeInFlight(cfg, steps, i, |steps|) && NotBefore(steps, t)
    requires At(cfg, steps, |steps|).state == Closed
    ensures steps <= steps' && Possible(cfg, steps') && ProbeInFlight(cfg, steps', i, |steps'|) && NotBefore(steps', t)
    ensures At(cfg, steps', |steps'|) == AfterStep(cfg, At(cfg, steps, |steps|), t, true)
  {
    var c := FreshCall(steps);
    var begun := steps + [Before(t, c)];
    hide At, Admitted, WellFormed, Monotone, Possible, ProbeInFlight;
    AddBefore(cfg, steps, t, c);
    StaysInFlight(cfg, steps, Before(t, c), i);
    assert begun[|steps|] == Before(t, c);
    forall k | 0 <= k < |begun| ensures !Completes(begun, |steps|, k) {
      assert k < |steps| ==> begun[k] == steps[k];
    }
    AddAfter(cfg, begun, t, true, |steps|);
    InFlightBegan(cfg, steps, i);
    assert begun[i] == steps[i];
    StaysInFlight(cfg, begun, After(t, true, c), i);
    steps' := begun + [After(t, true, c)];
  }

  lemma InFlightBegan(cfg: Settings, steps: seq<Step>, i: nat)
    requires ProbeInFlight(cfg, steps, i, |steps|)
    ensures i < |steps| && steps[i].Before?
  {
  }

  /** While a probe is in flight a closed breaker can trip again. */
  lemma {:induction false} CanTrip(cfg: Settings, steps: seq<Step>, i: nat, t: int) returns (steps': seq<Step>)
    requires ValidSettings(cfg) && Possible(cfg, steps) && ProbeInFlight(cfg, steps, i, |steps|) && NotBefore(steps, t)
    requires At(cfg, steps, |steps|).state == Closed
    ensures steps <= steps' && Possible(cfg, steps') && ProbeInFlight(cfg, steps', i, |steps'|) && NotBefore(steps', t)
    ensures At(cfg, steps', |steps'|).state == Open
    decreases cfg.threshold - At(cfg, steps, |steps|).failures
  {
    hide At, Possible, ProbeInFlight, NotBefore;
    ClosedCountsFailures(cfg, steps, |steps|);
    steps' := FailOnce(cfg, steps, i, t);
    if At(cfg, steps', |steps'|).state == Closed {
      steps' := CanTrip(cfg, steps', i, t);
    }
  }

  /** And after a cooldown an open one admits another probe. */
  lemma CanProbe(cfg: Settings, steps: seq<Step>, i: nat, t: int) returns (steps': seq<Step>)
    requires Possible(cfg, steps) && ProbeInFlight(cfg, steps, i, |steps|) && NotBefore(steps, t)
    requires At(cfg, steps, |steps|).state == Open
    ensures steps <= steps' && Possible(cfg, steps') && |steps| < |steps'|
    ensures ProbeInFlight(cfg, steps', i, |steps'|) && ProbeInFlight(cfg, steps', |steps'| - 1, |steps'|)
  {
    var b := At(cfg, steps, |steps|);
    var later := if b.openedAt + cfg.cooldown < t then t else b.openedAt + cfg.cooldown;
    var c := FreshCall(steps);
    hide At, Admitted, Possible;
    AddBefore(cfg, steps, later, c);
    StaysInFlight(cfg, steps, Before(later, c), i);
    steps' := steps + [Before(later, c)];
    assert Probe(cfg, steps', |steps|);
  }

  /** When a call other than an outstanding probe completes while half-open, the run can go on until a second
      probe is in flight beside the first. */
  lemma LateCompletionAllowsTwo(cfg: Settings, steps: seq<Step>, i: nat) returns (steps': seq<Step>)
    requires ValidSettings(cfg) && Possible(cfg, steps) && ProbeInFlight(cfg, steps, i, |steps|)
    requires steps[|steps| - 1].After? && At(cfg, steps, |steps| - 1).state == HalfOpen
    ensures steps <= steps' && Possible(cfg, steps') && |steps| < |steps'|
    ensures ProbeInFlight(cfg, steps', i, |steps'|) && ProbeInFlight(cfg, steps', |steps'| - 1, |steps'|)
  {
    var t := steps[|steps| - 1].time;
    assert NotBefore(steps, t);
    assert At(cfg, steps, |steps|).state != HalfOpen;
    hide At, Possible, ProbeInFlight, NotBefore;
    steps' := steps;
    if At(cfg, steps, |steps|).state == Closed {
      steps' := CanTrip(cfg, steps, i, t);
    }
    steps' := CanProbe(cfg, steps', i, t);
  }

  /** Two calls are admitted while closed and the first trips the breaker.  The second fails late,
      while a probe is running, and re-opens it; after another cooldown a second probe is admitted
      beside the first. */
  lemma TwoProbesInFlight()
    ensures
      var cfg := Settings(1, 10);
      var steps := [Before(0, 0), Before(0, 1), After(1, true, 0), Before(11, 2), After(12, true, 1), Before(22, 3)];
      Possible(cfg, steps) && ProbeInFlight(cfg, steps, 3, 6) && ProbeInFlight(cfg, steps, 5, 6)
  {
    var cfg := Settings(1, 10);
    var steps := [Before(0, 0), Before(0, 1), After(1, true, 0), Before(11, 2), After(12, true, 1), Before(22, 3)];
    assert At(cfg, steps, 1) == Fresh;
    assert At(cfg, steps, 2) == Fresh;
    assert At(cfg, steps, 3) == Breaker(Open, 1, 1, false);
    assert At(cfg, steps, 4) == Breaker(HalfOpen, 1, 1, true);
    assert At(cfg, steps, 5) == Breaker(Open, 1, 12, false);
    assert At(cfg, steps, 6) == Breaker(HalfOpen, 1, 12, true);
    assert Admitted(cfg, steps, 0) && Admitted(cfg, steps, 1);
    assert Started(cfg, steps, 2) && Started(cfg, steps, 4);
    assert Probe(cfg, steps, 3) && Probe(cfg, steps, 5);
    hide At, Admitted, Started;
  }

  // ---- the object ----

  /** The breaker object.  Each method is one critical section and performs the corresponding
      step of the model; `reported` collects what onStateChange is called with. */
  class CircuitBreaker {
    const failureThreshold: nat
    const cooldown: int
    var state: State
    var failures: nat
    var openedAt: int
    var probeInFlight: bool
    var reported: seq<(State, State)>

    function Cfg(): Settings {
      Settings(failureThreshold, cooldown)
    }

    function Model(): Breaker
      reads this
    {
      Breaker(state, failures, openedAt, probeInFlight)
    }

    /** Defaults of 5 failures and 30 seconds; options that are not positive are ignored. */
    constructor (threshold: int, cooldown: int)
      ensures ValidSettings(Cfg())
      ensures failureThreshold == (if threshold > 0 then threshold else 5)
      ensures this.cooldown == (if cooldown > 0 then cooldown else 30)
      ensures Model() == Fresh && reported == []
    {
      failureThreshold := if threshold > 0 then threshold else 5;
      this.cooldown := if cooldown > 0 then cooldown else 30;
      state, failures, openedAt, probeInFlight, reported := Closed, 0, 0, false, [];
    }

    method SetState(s: State)
      modifies this`state, this`reported
      ensures state == s
      ensures reported == old(reported) + (if old(state) == s then [] else [(old(state), s)])
    {
      if state == s {
        return;
      }
      var from := state;
      state := s;
      reported := reported + [(from, s)];
    }

    method DoRefresh(now: int)
      modifies this
      ensures Model() == Refresh(Cfg(), old(Model()), now)
      ensures reported == old(reported) + Report(old(Model()), Model())
    {
      if state == Open && now - openedAt >= cooldown {
        SetState(HalfOpen);
        probeInFlight := false;
      }
    }

    method Trip(now: int)
      modifies this
      ensures state == Open && openedAt == now && failures == old(failures) && probeInFlight == old(probeInFlight)
      ensures reported == old(reported) + Report(old(Model()), Model())
    {
      openedAt := now;
      SetState(Open);
    }

    method Reset()
      modifies this
      ensures state == Closed && failures == 0 && openedAt == old(openedAt) && probeInFlight == old(probeInFlight)
      ensures reported == old(reported) + Report(old(Model()), Model())
    {
      failures := 0;
      SetState(Closed);
    }

    method BeforeCall(now: int) returns (admitted: bool)
      modifies this
      ensures admitted == Admits(Cfg(), old(Model()), now)
      ensures Model() == BeforeStep(Cfg(), old(Model()), now)
      ensures reported == old(reported) + Report(old(Model()), Model())
    {
      DoRefresh(now);
      match state
      case Open => return false;
      case HalfOpen =>
        if probeInFlight {
          return false;
        }
        probeInFlight := true;
        return true;
      case Closed => return true;
    }

    method AfterCall(now: int, failure: bool)
      modifies this
      ensures Model() == AfterStep(Cfg(), old(Model()), now, failure)
      ensures reported == old(reported) + Report(old(Model()), Model())
    {
      if state == HalfOpen {
        probeInFlight := false;
        if failure {
          Trip(now);
        } else {
          Reset();
        }
        return;
      }
      if failure {
        failures := failures + 1;
        if failures >= failureThreshold {
          Trip(now);
        }
        return;
      }
      failures := 0;
    }

    method CurrentState(now: int) returns (s: State)
      modifies this
      ensures Model() == Refresh(Cfg(), old(Model()), now) && s == state
      ensures reported == old(reported) + Report(old(Model()), Model())
    {
      DoRefresh(now);
      s := state;
    }

    /** Execute with everything the other goroutines do while fn runs: an admitted call is its
        two steps with theirs in between, a rejected call is the first step alone. */
    method Execute(call: nat, begin: int, during: seq<Step>, end: int, fails: bool) returns (ran: bool)
      modifies this
      ensures ran == Admits(Cfg(), old(Model()), begin)
      ensures Model() == Steps(Cfg(), old(Model()), [Before(begin, call)] + (if ran then during + [After(end, fails, call)] else []))
    {
      ran := BeforeCall(begin);
      ghost var b := Model();
      if !ran {
        assert [Before(begin, call)][1..] == [];
        return;
      }
      for i := 0 to |during|
        invariant Model() == Steps(Cfg(), b, during[..i])
      {
        StepsSnoc(Cfg(), b, during[..i], during[i]);
        assert during[..i + 1] == during[..i] + [during[i]];
        match during[i] {
          case Before(t, _) => var _ := BeforeCall(t);
          case After(t, failure, _) => AfterCall(t, failure);
          case Query(t) => var _ := CurrentState(t);
        }
      }
      assert during[..|during|] == during;
      StepsSnoc(Cfg(), b, during, After(end, fails, call));
      AfterCall(end, fails);
      assert ([Before(begin, call)] + (during + [After(end, fails, call)]))[1..] == during + [After(end, fails, call)];
    }
  }

  /** `steps` performed from `b`. */
  function Steps(cfg: Settings, b: Breaker, steps: seq<Step>): Breaker
    decreases |steps|
  {
    if steps == [] then b else Steps(cfg, Next(cfg, b, steps[0]), steps[1..])
  }

  lemma {:induction false} StepsSnoc(cfg: Settings, b: Breaker, steps: seq<Step>, s: Step)
    ensures Steps(cfg, b, steps + [s]) == Next(cfg, Steps(cfg, b, steps), s)
    decreases |steps|
  {
    if steps == [] {
      assert (steps + [s])[1..] == [];
    } else {
      assert (steps + [s])[1..] == steps[1..] + [s];
      StepsSnoc(cfg, Next(cfg, b, steps[0]), steps[1..], s);
    }
  }

  /** From a fresh breaker, performing the first i steps gives the state the theorems speak of. */
  lemma {:induction false} StepsIsAt(cfg: Settings, steps: seq<Step>, i: nat)
    requires i <= |steps|
    ensures Steps(cfg, Fresh, steps[..i]) == At(cfg, steps, i)
  {
    if i > 0 {
      StepsIsAt(cfg, steps, i - 1);
      assert steps[..i] == steps[..i - 1] + [steps[i - 1]];
      StepsSnoc(cfg, Fresh, steps[..i - 1], steps[i - 1]);
    }
  }
}
