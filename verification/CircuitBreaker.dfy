/** The per-endpoint circuit breaker, and its runs against requests that may finish without being recorded. */
module CircuitBreaker {

  datatype Phase = Closed | HalfOpen | Open

  datatype Config = Config(failureThreshold: int, successThreshold: int, openTimeout: int, maxConcurrent: int)

  datatype Breaker = Breaker(
    phase: Phase, failures: int, successes: int, lastFailure: int, nextAttempt: int, concurrent: int)

  const CLOSED_AT_START := Breaker(Closed, 0, 0, 0, 0, 0)

  predicate Admits(c: Config, b: Breaker, now: int) {
    match b.phase
    case Closed => b.concurrent < c.maxConcurrent
    case Open => now > b.nextAttempt
    case HalfOpen => b.concurrent < 1
  }

  function Asked(c: Config, b: Breaker, now: int): Breaker {
    if !Admits(c, b, now) then b
    else if b.phase == Open then b.(phase := HalfOpen, successes := 0, concurrent := b.concurrent + 1)
    else b.(concurrent := b.concurrent + 1)
  }

  function Released(n: int): int {
    if n - 1 < 0 then 0 else n - 1
  }

  function Succeeded(c: Config, b: Breaker): Breaker {
    var r := b.(concurrent := Released(b.concurrent));
    match b.phase
    case Closed => r.(failures := 0)
    case Open => r
    case HalfOpen =>
      if b.successes + 1 >= c.successThreshold then r.(phase := Closed, successes := b.successes + 1, failures := 0)
      else r.(successes := b.successes + 1)
  }

  function Failed(c: Config, b: Breaker, now: int): Breaker {
    var r := b.(concurrent := Released(b.concurrent), failures := b.failures + 1, lastFailure := now);
    if b.phase == HalfOpen || (b.phase == Closed && b.failures + 1 >= c.failureThreshold)
    then r.(phase := Open, nextAttempt := now + c.openTimeout)
    else r
  }

  class CircuitBreaker {
    const config: Config
    var phase: Phase
    var failureCount: int
    var successCount: int
    var lastFailureTime: int
    var nextAttemptTime: int
    var concurrentCount: int

    function State(): Breaker
      reads this
    {
      Breaker(phase, failureCount, successCount, lastFailureTime, nextAttemptTime, concurrentCount)
    }

    constructor (c: Config)
      ensures config == c && State() == CLOSED_AT_START
    {
      config := c;
      phase, failureCount, successCount, lastFailureTime, nextAttemptTime, concurrentCount := Closed, 0, 0, 0, 0, 0;
    }

    method Allow(now: int) returns (ok: bool)
      modifies this
      ensures ok == Admits(config, old(State()), now)
      ensures State() == Asked(config, old(State()), now)
    {
      match phase {
        case Closed =>
          if concurrentCount >= config.maxConcurrent {
            return false;
          }
          concurrentCount := concurrentCount + 1;
          return true;
        case Open =>
          if now > nextAttemptTime {
            phase := HalfOpen;
            successCount := 0;
            concurrentCount := concurrentCount + 1;
            return true;
          }
          return false;
        case HalfOpen =>
          if concurrentCount >= 1 {
            return false;
          }
          concurrentCount := concurrentCount + 1;
          return true;
      }
    }

    method RecordSuccess()
      modifies this
      ensures State() == Succeeded(config, old(State()))
    {
      concurrentCount := concurrentCount - 1;
      if concurrentCount < 0 {
        concurrentCount := 0;
      }
      if phase == Closed {
        failureCount := 0;
      } else if phase == HalfOpen {
        successCount := successCount + 1;
        if successCount >= config.successThreshold {
          phase := Closed;
          failureCount := 0;
        }
      }
    }

    method RecordFailure(now: int)
      modifies this
      ensures State() == Failed(config, old(State()), now)
    {
      concurrentCount := concurrentCount - 1;
      if concurrentCount < 0 {
        concurrentCount := 0;
      }
      failureCount := failureCount + 1;
      lastFailureTime := now;
      if phase == Closed {
        if failureCount >= config.failureThreshold {
          phase := Open;
          nextAttemptTime := now + config.openTimeout;
        }
      } else if phase == HalfOpen {
        phase := Open;
        nextAttemptTime := now + config.openTimeout;
      }
    }

    /** What the middleware reports for a response: 2xx and 3xx succeed, 5xx fail, and anything else is not reported
        at all. */
    method Report(status: int, now: int)
      modifies this
      ensures State() ==
        if 200 <= status < 400 then Succeeded(config, old(State()))
        else if status >= 500 then Failed(config, old(State()), now)
        else old(State())
    {
      if status >= 200 && status < 400 {
        RecordSuccess();
      } else if status >= 500 {
        RecordFailure(now);
      }
    }
  }
}

module CircuitRuns {
  import opened Text
  import opened CircuitBreaker

  /** A request in flight carries the number of the half-open episode that admitted it, or nothing. */
  type Tag = Option<nat>

  datatype Event = Ask(now: int) | Finish(now: int, tag: Tag, status: int)

  datatype Mark = Admitted | Probe | Denied | Success | Failure | Unrecorded

  /** `unrecorded` counts the finished requests that were never reported; `history` is what happened so far. */
  datatype World = World(
    b: Breaker, flights: multiset<Tag>, unrecorded: nat, episode: nat, clock: int, history: seq<Mark>)

  predicate Possible(w: World, e: Event) {
    e.now >= w.clock && (e.Finish? ==> e.tag in w.flights)
  }

  function Step(c: Config, w: World, e: Event): World
    requires Possible(w, e)
  {
    match e
    case Ask(now) =>
      var b := Asked(c, w.b, now);
      if !Admits(c, w.b, now) then w.(b := b, clock := now, history := w.history + [Denied])
      else if w.b.phase == Open then
        World(b, w.flights + multiset{Some(w.episode + 1)}, w.unrecorded, w.episode + 1, now, w.history + [Probe])
      else
        var tag := if w.b.phase == HalfOpen then Some(w.episode) else None;
        w.(b := b, flights := w.flights + multiset{tag}, clock := now, history := w.history + [Admitted])
    case Finish(now, tag, status) =>
      var left := w.(flights := w.flights - multiset{tag}, clock := now);
      if 200 <= status < 400 then left.(b := Succeeded(c, w.b), history := w.history + [Success])
      else if status >= 500 then left.(b := Failed(c, w.b, now), history := w.history + [Failure])
      else left.(unrecorded := w.unrecorded + 1, history := w.history + [Unrecorded])
  }

  const START := World(CLOSED_AT_START, multiset{}, 0, 0, 0, [])

  predicate IsRun(c: Config, w: World, es: seq<Event>)
    decreases es
  {
    es == [] || (Possible(w, es[0]) && IsRun(c, Step(c, w, es[0]), es[1..]))
  }

  function After(c: Config, w: World, es: seq<Event>): World
    requires IsRun(c, w, es)
    decreases es
  {
    if es == [] then w else After(c, Step(c, w, es[0]), es[1..])
  }

  // ---- Counting ----

  function AtLeast(n: int, floor: nat): nat {
    if n < floor then floor else n
  }

  /** Failures since the last success, over the whole history. */
  function FailuresInARow(h: seq<Mark>): nat {
    if h == [] then 0
    else
      var last, before := h[|h| - 1], h[..|h| - 1];
      if last == Success then 0 else FailuresInARow(before) + (if last == Failure then 1 else 0)
  }

  /** Successes since the last probe, if no failure came after it. */
  function SuccessesSinceProbe(h: seq<Mark>): Option<nat> {
    if h == [] then None
    else
      var last, before := h[|h| - 1], h[..|h| - 1];
      if last == Probe then Some(0)
      else if last == Failure then None
      else
        var n := SuccessesSinceProbe(before);
        if last == Success && n.Some? then Some(n.value + 1) else n
  }

  /** Every unit of the counter is a request in flight or one that finished unrecorded. */
  ghost predicate Conserved(c: Config, w: World) {
    && w.b.concurrent == |w.flights| + w.unrecorded
    && w.b.concurrent <= AtLeast(c.maxConcurrent, 0) + (if w.b.phase == HalfOpen then 1 else 0)
  }

  /** No half-open episode has two requests in flight. */
  ghost predicate OneProbeEach(w: World) {
    && (forall e: nat :: w.flights[Some(e)] <= 1)
    && (forall e: nat :: Some(e) in w.flights ==> e <= w.episode)
  }

  ghost predicate Counted(c: Config, w: World) {
    && (w.b.phase == Closed ==> w.b.failures == FailuresInARow(w.history) < AtLeast(c.failureThreshold, 1))
    && (w.b.phase == HalfOpen ==>
      SuccessesSinceProbe(w.history) == Some(w.b.successes) && w.b.successes < AtLeast(c.successThreshold, 1))
  }

  ghost predicate Inv(c: Config, w: World) {
    Conserved(c, w) && OneProbeEach(w) && Counted(c, w)
  }

  lemma StepKeepsConserved(c: Config, w: World, e: Event)
    requires Conserved(c, w) && Possible(w, e)
    ensures Conserved(c, Step(c, w, e))
  {
    match e
    case Ask(now) =>
    case Finish(now, tag, status) =>
      OneFewer(w.flights, tag);
      FinishedCounts(c, w.b, now);
  }

  /** Recording a request takes one off a positive counter, and no breaker becomes half-open by it. */
  lemma FinishedCounts(c: Config, b: Breaker, now: int)
    ensures b.concurrent >= 1 ==> Succeeded(c, b).concurrent == b.concurrent - 1
    ensures b.concurrent >= 1 ==> Failed(c, b, now).concurrent == b.concurrent - 1
    ensures Succeeded(c, b).phase == HalfOpen ==> b.phase == HalfOpen
    ensures Failed(c, b, now).phase != HalfOpen
  {
  }

  lemma OneFewer(flights: multiset<Tag>, tag: Tag)
    requires tag in flights
    ensures |flights - multiset{tag}| == |flights| - 1
  {
  }

  lemma StepKeepsOneProbe(c: Config, w: World, e: Event)
    requires Conserved(c, w) && OneProbeEach(w) && Possible(w, e)
    ensures OneProbeEach(Step(c, w, e))
  {
    if e.Ask? && Admits(c, w.b, e.now) && w.b.phase == HalfOpen {
      assert w.flights == multiset{};
    }
  }

  lemma HistoryGrows(h: seq<Mark>, m: Mark)
    ensures FailuresInARow(h + [m]) == if m == Success then 0 else FailuresInARow(h) + (if m == Failure then 1 else 0)
    ensures SuccessesSinceProbe(h + [m]) ==
      if m == Probe then Some(0)
      else if m == Failure then None
      else if m == Success && SuccessesSinceProbe(h).Some? then Some(SuccessesSinceProbe(h).value + 1)
      else SuccessesSinceProbe(h)
  {
    assert (h + [m])[..|h|] == h;
  }

  /** The mark a step leaves in the history. */
  function MarkOf(c: Config, w: World, e: Event): Mark {
    match e
    case Ask(now) => if !Admits(c, w.b, now) then Denied else if w.b.phase == Open then Probe else Admitted
    case Finish(_, _, status) => if 200 <= status < 400 then Success else if status >= 500 then Failure else Unrecorded
  }

  lemma StepMarks(c: Config, w: World, e: Event)
    requires Possible(w, e)
    ensures Step(c, w, e).history == w.history + [MarkOf(c, w, e)]
  {
    hide Admits, Asked, Succeeded, Failed;
  }

  /** How the two counts move with the history. */
  lemma CountsMove(c: Config, w: World, e: Event)
    requires Possible(w, e)
    ensures
      var h, m, u := w.history, MarkOf(c, w, e), Step(c, w, e).history;
      && FailuresInARow(u) == (if m == Success then 0 else FailuresInARow(h) + (if m == Failure then 1 else 0))
      && SuccessesSinceProbe(u) ==
        if m == Probe then Some(0)
        else if m == Failure then None
        else if m == Success && SuccessesSinceProbe(h).Some? then Some(SuccessesSinceProbe(h).value + 1)
        else SuccessesSinceProbe(h)
  {
    hide MarkOf, FailuresInARow, SuccessesSinceProbe, Step;
    StepMarks(c, w, e);
    HistoryGrows(w.history, MarkOf(c, w, e));
  }

  lemma StepKeepsCounted(c: Config, w: World, e: Event)
    requires Counted(c, w) && Possible(w, e)
    ensures Counted(c, Step(c, w, e))
  {
    hide FailuresInARow, SuccessesSinceProbe;
    CountsMove(c, w, e);
  }

  lemma {:induction false} RunKeepsInv(c: Config, w: World, es: seq<Event>)
    requires Inv(c, w) && IsRun(c, w, es)
    ensures Inv(c, After(c, w, es))
    decreases es
  {
    hide Conserved, OneProbeEach, Counted, Step, Possible;
    if es != [] {
      StepKeepsConserved(c, w, es[0]);
      StepKeepsOneProbe(c, w, es[0]);
      StepKeepsCounted(c, w, es[0]);
      RunKeepsInv(c, Step(c, w, es[0]), es[1..]);
    }
  }

  /** In every reachable state the counter is exactly the requests in flight plus those never recorded, it is at
      most the limit (one more while half-open), no episode has two requests in flight, and the two thresholds have
      not been met. */
  lemma ReachableInv(c: Config, es: seq<Event>)
    requires IsRun(c, START, es)
    ensures Inv(c, After(c, START, es))
  {
    RunKeepsInv(c, START, es);
  }

  /** So the clamp at zero never fires. */
  lemma ClampNeverFires(c: Config, w: World, e: Event)
    requires Conserved(c, w) && Possible(w, e) && e.Finish?
    ensures w.b.concurrent - 1 >= 0
  {
    assert w.flights[e.tag] >= 1;
    assert multiset{e.tag} <= w.flights;
    assert w.flights == multiset{e.tag} + (w.flights - multiset{e.tag});
  }

  // ---- When it opens, closes and lets through ----

  lemma OpensIff(c: Config, w: World, e: Event)
    requires Counted(c, w) && w.b.phase == Closed && Possible(w, e)
    ensures Step(c, w, e).b.phase == Open <==> FailuresInARow(Step(c, w, e).history) == AtLeast(c.failureThreshold, 1)
    ensures Step(c, w, e).b.phase != HalfOpen
  {
    hide FailuresInARow, SuccessesSinceProbe;
    CountsMove(c, w, e);
  }

  lemma ClosesIff(c: Config, w: World, e: Event)
    requires Counted(c, w) && w.b.phase == HalfOpen && Possible(w, e)
    ensures Step(c, w, e).b.phase == Closed <==>
      SuccessesSinceProbe(Step(c, w, e).history) == Some(AtLeast(c.successThreshold, 1))
    ensures Step(c, w, e).b.phase == Open <==> SuccessesSinceProbe(Step(c, w, e).history) == None
  {
    hide FailuresInARow, SuccessesSinceProbe;
    CountsMove(c, w, e);
  }

  predicate AdmitsAfter(c: Config, w: World, es: seq<Event>, ask: Event)
    requires IsRun(c, w, es)
  {
    ask.Ask? && Possible(After(c, w, es), ask) && Admits(c, After(c, w, es).b, ask.now)
  }

  lemma {:induction false} ClockRises(c: Config, w: World, es: seq<Event>)
    requires IsRun(c, w, es)
    ensures After(c, w, es).clock >= w.clock
    decreases es
  {
    if es != [] {
      ClockRises(c, Step(c, w, es[0]), es[1..]);
    }
  }

  lemma {:induction false} NothingBeforeNextAttempt(c: Config, w: World, es: seq<Event>, ask: Event)
    requires w.b.phase == Open && IsRun(c, w, es) && AdmitsAfter(c, w, es, ask)
    ensures ask.now > w.b.nextAttempt
    decreases es
  {
    if es != [] {
      var next := Step(c, w, es[0]);
      if next.b.phase == Open {
        assert next.b.nextAttempt == w.b.nextAttempt;
        NothingBeforeNextAttempt(c, next, es[1..], ask);
      } else {
        ClockRises(c, next, es[1..]);
      }
    }
  }

  /** Whatever happens after it opens, nothing is admitted until more than the open timeout has passed. */
  lemma CoolDown(c: Config, w: World, opening: Event, es: seq<Event>, ask: Event)
    requires Possible(w, opening) && w.b.phase != Open && Step(c, w, opening).b.phase == Open
    requires IsRun(c, Step(c, w, opening), es) && AdmitsAfter(c, Step(c, w, opening), es, ask)
    ensures ask.now > opening.now + c.openTimeout
  {
    NothingBeforeNextAttempt(c, Step(c, w, opening), es, ask);
  }

  lemma {:induction false} OpenUntilProbe(c: Config, w: World, es: seq<Event>)
    requires w.b.phase == Open && IsRun(c, w, es)
    ensures After(c, w, es).episode >= w.episode
    ensures After(c, w, es).episode == w.episode ==>
      After(c, w, es).b.phase == Open && After(c, w, es).b.nextAttempt == w.b.nextAttempt
    decreases es
  {
    if es != [] {
      var next := Step(c, w, es[0]);
      if next.b.phase == Open {
        OpenUntilProbe(c, next, es[1..]);
      } else {
        EpisodesRise(c, next, es[1..]);
      }
    }
  }

  lemma {:induction false} EpisodesRise(c: Config, w: World, es: seq<Event>)
    requires IsRun(c, w, es)
    ensures After(c, w, es).episode >= w.episode
    decreases es
  {
    if es != [] {
      EpisodesRise(c, Step(c, w, es[0]), es[1..]);
    }
  }

  /** As long as no probe has been let through since it opened, a request is admitted exactly when more than the open
      timeout has passed. */
  lemma ProbeIff(c: Config, w: World, opening: Event, es: seq<Event>, now: int)
    requires Possible(w, opening) && w.b.phase != Open && Step(c, w, opening).b.phase == Open
    requires IsRun(c, Step(c, w, opening), es)
    requires After(c, Step(c, w, opening), es).episode == w.episode
    ensures Admits(c, After(c, Step(c, w, opening), es).b, now) <==> now > opening.now + c.openTimeout
  {
    OpenUntilProbe(c, Step(c, w, opening), es);
  }

  /** In every reachable state: a closed endpoint admits a request exactly when those in flight and those never recorded
      leave a place, a half-open one exactly when there are none at all. */
  lemma AdmitsIff(c: Config, es: seq<Event>, now: int)
    requires IsRun(c, START, es)
    ensures
      var w := After(c, START, es);
      && (w.b.phase == Closed ==> (Admits(c, w.b, now) <==> |w.flights| + w.unrecorded < c.maxConcurrent))
      && (w.b.phase == HalfOpen ==> (Admits(c, w.b, now) <==> |w.flights| + w.unrecorded == 0))
  {
    hide IsRun, After, OneProbeEach, Counted;
    ReachableInv(c, es);
  }

  // ---- Denied for ever ----

  /** Nothing in flight, and unrecorded requests hold every place. */
  predicate Dead(c: Config, w: World) {
    && w.flights == multiset{}
    && ((w.b.phase == Closed && w.unrecorded >= c.maxConcurrent) || (w.b.phase == HalfOpen && w.unrecorded >= 1))
  }

  lemma {:induction false} DeadStaysDead(c: Config, w: World, es: seq<Event>)
    requires Conserved(c, w) && Dead(c, w) && IsRun(c, w, es)
    ensures Dead(c, After(c, w, es)) && Conserved(c, After(c, w, es))
    decreases es
  {
    if es != [] {
      assert es[0].Ask?;
      DeadStaysDead(c, Step(c, w, es[0]), es[1..]);
    }
  }

  ghost predicate CanAdmit(c: Config, w: World) {
    exists es, ask :: IsRun(c, w, es) && AdmitsAfter(c, w, es, ask)
  }

  /** An endpoint serves no request ever again exactly in a dead state. */
  lemma DeniedForeverIff(c: Config, w: World)
    requires Conserved(c, w)
    ensures !CanAdmit(c, w) <==> Dead(c, w)
  {
    if Dead(c, w) {
      forall es, ask | IsRun(c, w, es) ensures !AdmitsAfter(c, w, es, ask) {
        DeadStaysDead(c, w, es);
      }
    } else {
      WayOut(c, w);
    }
  }

  lemma AdmitsNow(c: Config, w: World, now: int)
    requires now >= w.clock && Admits(c, w.b, now)
    ensures CanAdmit(c, w)
  {
    assert IsRun(c, w, []) && AdmitsAfter(c, w, [], Ask(now));
  }

  lemma AdmitsNext(c: Config, w: World, e: Event, now: int)
    requires Possible(w, e) && now >= e.now && Admits(c, Step(c, w, e).b, now)
    ensures CanAdmit(c, w)
  {
    var next := Step(c, w, e);
    assert [e][1..] == [];
    assert IsRun(c, next, []);
    assert IsRun(c, w, [e]) && After(c, w, [e]) == next;
    assert AdmitsAfter(c, w, [e], Ask(now));
  }

  lemma WayOut(c: Config, w: World)
    requires Conserved(c, w) && !Dead(c, w)
    ensures CanAdmit(c, w)
  {
    if w.b.phase == Open {
      AdmitsNow(c, w, AtLeast(w.clock, 0) + AtLeast(w.b.nextAttempt, 0) + 1);
    } else if w.flights == multiset{} {
      AdmitsNow(c, w, w.clock);
    } else {
      var tag :| tag in w.flights;
      var e := Finish(w.clock, tag, if w.b.phase == HalfOpen then 500 else 200);
      ClampNeverFires(c, w, e);
      var next := Step(c, w, e);
      var later := AtLeast(w.clock, 0) + AtLeast(next.b.nextAttempt, 0) + 1;
      AdmitsNext(c, w, e, if w.b.phase == HalfOpen then later else w.clock);
    }
  }

  /** `n` requests one after another, each answered with a client error. */
  function ClientErrors(n: nat): seq<Event> {
    if n == 0 then [] else [Ask(0), Finish(0, None, 404)] + ClientErrors(n - 1)
  }

  lemma {:induction false} ClientErrorsPileUp(c: Config, w: World, n: nat)
    requires w.b.phase == Closed && w.clock == 0 && w.flights == multiset{} && w.b.concurrent == w.unrecorded
    requires w.unrecorded + n <= c.maxConcurrent
    ensures IsRun(c, w, ClientErrors(n))
    ensures var end := After(c, w, ClientErrors(n));
      end.b.phase == Closed && end.flights == multiset{} && end.unrecorded == w.unrecorded + n
    decreases n
  {
    if n > 0 {
      var es := ClientErrors(n);
      var asked := Step(c, w, Ask(0));
      assert asked.flights == multiset{None};
      var done := Step(c, asked, Finish(0, None, 404));
      ClientErrorsPileUp(c, done, n - 1);
      assert es[1..] == [Finish(0, None, 404)] + ClientErrors(n - 1);
      assert es[1..][1..] == ClientErrors(n - 1);
      assert IsRun(c, asked, es[1..]) && After(c, asked, es[1..]) == After(c, done, ClientErrors(n - 1));
    }
  }

  /** As many client errors as the limit allows at once, and the endpoint never answers again. */
  lemma ClientErrorsKillTheEndpoint(c: Config)
    requires c.maxConcurrent >= 0
    ensures IsRun(c, START, ClientErrors(c.maxConcurrent))
    ensures !CanAdmit(c, After(c, START, ClientErrors(c.maxConcurrent)))
  {
    ClientErrorsPileUp(c, START, c.maxConcurrent);
    RunKeepsInv(c, START, ClientErrors(c.maxConcurrent));
    DeniedForeverIff(c, After(c, START, ClientErrors(c.maxConcurrent)));
  }
}
