/**
  Starting and stopping the event consumer: one goroutine a topic, a stop channel that is replaced when a
  start fails part way, a stopped flag under a lock, and a wait group. Any number of callers and goroutines
  interleave; each lock section, channel choice and wait is one step. A channel is its generation number.
 */
module EventConsumer {
  import opened Prelude

  /** A goroutine about to choose, or blocked in a choice that holds the stop channel of some generation. */
  datatype Worker = Looping | Blocked(gen: nat)

  datatype Caller =
    | Subscribing(left: nat) | FailSignal | FailWait | FailReset | StopSignal | StopWait
    | Started | StartFailed | StopReturned

  datatype State = State(closings: seq<nat>, stopped: bool, wg: nat, workers: map<nat, Worker>, callers: map<nat, Caller>)

  datatype Step =
    | CallStart(caller: nat, topics: nat)
    | CallStop(caller: nat)
    | Subscribe(caller: nat, worker: nat)
    | SubscribeFails(caller: nat)
    | StartDone(caller: nat)
    | Signal(caller: nat)
    | WaitDone(caller: nat)
    | Reset(caller: nat)
    | Choose(worker: nat)
    | Receive(worker: nat)
    | ExitStopped(worker: nat)
    | ExitSource(worker: nat)

  predicate In(s: State, caller: nat, at: Caller) {
    caller in s.callers && s.callers[caller] == at
  }

  predicate Enabled(s: State, step: Step) {
    match step
    case CallStart(c, _) => c !in s.callers
    case CallStop(c) => c !in s.callers
    case Subscribe(c, w) => c in s.callers && s.callers[c].Subscribing? && s.callers[c].left > 0 && w !in s.workers
    case SubscribeFails(c) => c in s.callers && s.callers[c].Subscribing? && s.callers[c].left > 0
    case StartDone(c) => In(s, c, Subscribing(0))
    case Signal(c) => In(s, c, FailSignal) || In(s, c, StopSignal)
    case WaitDone(c) => s.wg == 0 && (In(s, c, FailWait) || In(s, c, StopWait))
    case Reset(c) => In(s, c, FailReset)
    case Choose(w) => w in s.workers && s.workers[w].Looping?
    case Receive(w) => w in s.workers && s.workers[w].Blocked?
    case ExitStopped(w) =>
      w in s.workers && s.workers[w].Blocked? && s.workers[w].gen < |s.closings| && s.closings[s.workers[w].gen] > 0
    case ExitSource(w) => w in s.workers && s.workers[w].Blocked?
  }

  /** The generation of the channel now in the field. */
  function Current(s: State): nat
    requires s.closings != []
  {
    |s.closings| - 1
  }

  function Moved(s: State, c: nat, to: Caller): State {
    s.(callers := s.callers[c := to])
  }

  /** The lock section: close the current channel unless that was done already. */
  function Signalled(s: State): State
    requires s.closings != []
  {
    if s.stopped then s
    else s.(closings := s.closings[Current(s) := s.closings[Current(s)] + 1], stopped := true)
  }

  /** The other lock section: a new channel, and not stopped. */
  function Replaced(s: State): State {
    s.(closings := s.closings + [0], stopped := false)
  }

  function Gone(s: State, w: nat): State {
    s.(workers := s.workers - {w}, wg := if s.wg > 0 then s.wg - 1 else 0)
  }

  function Next(s: State, step: Step): State
    requires s.closings != [] && Enabled(s, step)
  {
    match step
    case CallStart(c, topics) => Moved(s, c, Subscribing(topics))
    case CallStop(c) => Moved(s, c, StopSignal)
    case Subscribe(c, w) => Moved(s, c, Subscribing(s.callers[c].left - 1)).(workers := s.workers[w := Looping], wg := s.wg + 1)
    case SubscribeFails(c) => Moved(s, c, FailSignal)
    case StartDone(c) => Moved(s, c, Started)
    case Signal(c) => Moved(Signalled(s), c, if s.callers[c] == FailSignal then FailWait else StopWait)
    case WaitDone(c) => Moved(s, c, if s.callers[c] == FailWait then FailReset else StopReturned)
    case Reset(c) => Moved(Replaced(s), c, StartFailed)
    case Choose(w) => s.(workers := s.workers[w := Blocked(Current(s))])
    case Receive(w) => s.(workers := s.workers[w := Looping])
    case ExitStopped(w) => Gone(s, w)
    case ExitSource(w) => Gone(s, w)
  }

  const FRESH := State([0], false, 0, map[], map[])

  ghost predicate IsRun(states: seq<State>, steps: seq<Step>) {
    && |states| == |steps| + 1
    && states[0] == FRESH
    && forall i | 0 <= i < |steps| :: StepTaken(states, steps, i)
  }

  ghost predicate StepTaken(states: seq<State>, steps: seq<Step>, i: nat)
    requires i < |steps| && |states| == |steps| + 1
  {
    states[i].closings != [] && Enabled(states[i], steps[i]) && states[i + 1] == Next(states[i], steps[i])
  }

  // ---- Whatever the interleaving ----

  /** No channel is closed twice, the flag tells whether the current one is closed, the wait group counts the goroutines. */
  ghost predicate Inv(s: State) {
    && s.closings != []
    && (forall g | 0 <= g < |s.closings| :: s.closings[g] <= 1)
    && (s.stopped <==> s.closings[Current(s)] == 1)
    && s.wg == |s.workers|
    && (forall w | w in s.workers && s.workers[w].Blocked? :: s.workers[w].gen <= Current(s))
  }

  lemma RemoveOne(m: map<nat, Worker>, w: nat)
    requires w in m
    ensures |m - {w}| == |m| - 1
  {
    assert m.Keys == (m - {w}).Keys + {w};
  }

  lemma AddOne(m: map<nat, Worker>, w: nat, x: Worker)
    ensures |m[w := x]| == if w in m then |m| else |m| + 1
  {
    assert m[w := x].Keys == m.Keys + {w};
  }

  /** Steps of goroutines, which come and go. */
  predicate WorkerStep(step: Step) {
    step.Subscribe? || step.Choose? || step.Receive? || step.ExitStopped? || step.ExitSource?
  }

  lemma WorkerStepKeeps(s: State, step: Step)
    requires Inv(s) && Enabled(s, step) && WorkerStep(step)
    ensures Inv(Next(s, step))
  {
    if step.Subscribe? {
      AddOne(s.workers, step.worker, Looping);
    } else if step.Choose? {
      AddOne(s.workers, step.worker, Blocked(Current(s)));
    } else if step.Receive? {
      AddOne(s.workers, step.worker, Looping);
    } else {
      RemoveOne(s.workers, step.worker);
    }
  }

  lemma CallerStepKeeps(s: State, step: Step)
    requires Inv(s) && Enabled(s, step) && !WorkerStep(step)
    ensures Inv(Next(s, step))
  {
  }

  lemma StepKeeps(s: State, step: Step)
    requires Inv(s) && Enabled(s, step)
    ensures Inv(Next(s, step))
  {
    if WorkerStep(step) {
      WorkerStepKeeps(s, step);
    } else {
      CallerStepKeeps(s, step);
    }
  }

  /** Under every interleaving of starts, stops and goroutines, each generation's channel is closed at most once. */
  lemma {:induction false} ClosedAtMostOnce(states: seq<State>, steps: seq<Step>, n: nat)
    requires IsRun(states, steps) && n <= |steps|
    ensures Inv(states[n])
  {
    if n > 0 {
      ClosedAtMostOnce(states, steps, n - 1);
      assert StepTaken(states, steps, n - 1);
      StepKeeps(states[n - 1], steps[n - 1]);
    }
  }

  // ---- When no channel is lost ----

  /** Every channel that was replaced had been closed. */
  ghost predicate PastClosed(s: State) {
    forall g | 0 <= g < |s.closings| - 1 :: s.closings[g] == 1
  }

  /** The flag was up at every reset so far. */
  ghost predicate ResetsFlagged(states: seq<State>, steps: seq<Step>, n: nat)
    requires n <= |steps| < |states|
  {
    forall i | 0 <= i < n && steps[i].Reset? :: states[i].stopped
  }

  /** A step keeps all but the current channel as they are; a reset adds the current one to them. */
  lemma StepPast(s: State, step: Step)
    requires Inv(s) && Enabled(s, step)
    ensures PastClosed(Next(s, step)) <==> PastClosed(s) && (step.Reset? ==> s.stopped)
  {
    var s' := Next(s, step);
    if step.Reset? {
      assert s'.closings == s.closings + [0];
      assert s'.closings[Current(s)] == s.closings[Current(s)];
      assert forall g | 0 <= g < Current(s) :: s'.closings[g] == s.closings[g];
    } else {
      assert |s'.closings| == |s.closings| && forall g | 0 <= g < Current(s) :: s'.closings[g] == s.closings[g];
    }
  }

  /**
    Under every interleaving, starts overlapping or not: no channel has been replaced unclosed if and only if
    the flag was up whenever a failing start entered the lock section of its reset.
   */
  lemma {:induction false} NoChannelLostExactly(states: seq<State>, steps: seq<Step>, n: nat)
    requires IsRun(states, steps) && n <= |steps|
    ensures PastClosed(states[n]) <==> ResetsFlagged(states, steps, n)
  {
    if n > 0 {
      NoChannelLostExactly(states, steps, n - 1);
      ClosedAtMostOnce(states, steps, n - 1);
      assert StepTaken(states, steps, n - 1);
      StepPast(states[n - 1], steps[n - 1]);
    }
  }

  /** A failing start between its signal and its reset. */
  predicate Failing(c: Caller) {
    c.FailWait? || c.FailReset?
  }

  predicate OneFailing(s: State) {
    forall a, b | a in s.callers && b in s.callers && Failing(s.callers[a]) && Failing(s.callers[b]) :: a == b
  }

  lemma {:induction false} FailingFlagged(states: seq<State>, steps: seq<Step>, n: nat)
    requires IsRun(states, steps) && n <= |steps| && forall i | 0 <= i <= n :: OneFailing(states[i])
    ensures forall c | c in states[n].callers && Failing(states[n].callers[c]) :: states[n].stopped
  {
    if n > 0 {
      FailingFlagged(states, steps, n - 1);
      assert StepTaken(states, steps, n - 1);
      FlagStep(states[n - 1], steps[n - 1]);
    }
  }

  lemma FlagStep(s: State, step: Step)
    requires s.closings != [] && Enabled(s, step) && OneFailing(s)
    requires forall c | c in s.callers && Failing(s.callers[c]) :: s.stopped
    ensures forall c | c in Next(s, step).callers && Failing(Next(s, step).callers[c]) :: Next(s, step).stopped
  {
  }

  /** Starts may overlap in any way, as long as no two of them are between signal and reset at once: then no channel is lost. */
  lemma OneFailingLosesNothing(states: seq<State>, steps: seq<Step>, n: nat)
    requires IsRun(states, steps) && n <= |steps| && forall i | 0 <= i < n :: OneFailing(states[i])
    ensures ResetsFlagged(states, steps, n) && PastClosed(states[n])
  {
    forall i | 0 <= i < n && steps[i].Reset? ensures states[i].stopped {
      FailingFlagged(states, steps, i);
      assert StepTaken(states, steps, i);
    }
    NoChannelLostExactly(states, steps, n);
  }

  // ---- Who is left running ----

  lemma NobodyLeft(s: State)
    requires Inv(s) && s.wg == 0
    ensures s.workers == map[]
  {
    assert s.workers.Keys == {};
  }

  ghost predicate SubscribedIn(steps: seq<Step>, from: nat, to: nat, w: nat)
    requires to <= |steps|
  {
    exists i :: from <= i < to && steps[i].Subscribe? && steps[i].worker == w
  }

  /** After a wait is over, only goroutines subscribed since then can be running. */
  lemma {:induction false} OnlyLaterWorkers(states: seq<State>, steps: seq<Step>, k: nat, n: nat)
    requires IsRun(states, steps) && k < n <= |steps| && steps[k].WaitDone?
    ensures forall w | w in states[n].workers :: SubscribedIn(steps, k + 1, n, w)
  {
    if n == k + 1 {
      ClosedAtMostOnce(states, steps, k);
      assert StepTaken(states, steps, k);
      NobodyLeft(states[k]);
    } else {
      OnlyLaterWorkers(states, steps, k, n - 1);
      assert StepTaken(states, steps, n - 1);
      forall w | w in states[n].workers ensures SubscribedIn(steps, k + 1, n, w) {
        if w in states[n - 1].workers {
          assert SubscribedIn(steps, k + 1, n - 1, w);
        } else {
          assert steps[n - 1].Subscribe? && steps[n - 1].worker == w;
        }
      }
    }
  }

  /** When a wait is over, by a stop or by a failing start, no goroutine runs until somebody subscribes again. */
  lemma WaitLeavesNothing(states: seq<State>, steps: seq<Step>, k: nat, n: nat)
    requires IsRun(states, steps) && k < n <= |steps| && steps[k].WaitDone?
    requires forall i | k < i < n :: !steps[i].Subscribe?
    ensures states[n].workers == map[] && states[n].wg == 0
  {
    ClosedAtMostOnce(states, steps, n);
    OnlyLaterWorkers(states, steps, k, n);
    assert states[n].workers.Keys == {};
  }

  /**
    A start that fails always leaves an open channel to start again with; and it leaves a goroutine running
    only if some start subscribed one after its wait was over.
   */
  lemma FailedStartLeavesNothing(states: seq<State>, steps: seq<Step>, k: nat, n: nat)
    requires IsRun(states, steps) && k < n < |steps| && steps[n].Reset?
    requires steps[k].WaitDone? && steps[k].caller == steps[n].caller
    ensures var s := states[n + 1];
            && !s.stopped && s.closings != [] && s.closings[Current(s)] == 0
            && (forall w | w in s.workers :: SubscribedIn(steps, k + 1, n, w))
            && ((forall i | k < i < n :: !steps[i].Subscribe?) ==> s.workers == map[] && s.wg == 0)
  {
    assert StepTaken(states, steps, n);
    OnlyLaterWorkers(states, steps, k, n);
    if forall i | k < i < n :: !steps[i].Subscribe? {
      WaitLeavesNothing(states, steps, k, n);
    }
  }

  // ---- A waiting stop is never stuck ----

  /** Every goroutine will find the channel it looks at closed. */
  ghost predicate AllCanHear(s: State) {
    forall w | w in s.workers :: CanHear(s, s.workers[w])
  }

  predicate CanHear(s: State, w: Worker) {
    if w.Blocked? then w.gen < |s.closings| && s.closings[w.gen] > 0 else s.stopped
  }

  /** A stretch of a run in which goroutines only choose and exit. */
  ghost predicate Draining(states: seq<State>, steps: seq<Step>) {
    && |states| == |steps| + 1
    && forall i | 0 <= i < |steps| :: (steps[i].Choose? || steps[i].ExitStopped?) && StepTaken(states, steps, i)
  }

  /** Such a stretch leads from one state to an end of all waits. */
  ghost predicate Drains(s: State, states: seq<State>, steps: seq<Step>) {
    Draining(states, steps) && states[0] == s && states[|steps|].wg == 0
  }

  lemma Join(a: seq<State>, x: seq<Step>, b: seq<State>, y: seq<Step>)
    requires Draining(a, x) && Draining(b, y) && a[|x|] == b[0]
    ensures Draining(a + b[1..], x + y) && (a + b[1..])[|x + y|] == b[|y|]
  {
    var states, steps := a + b[1..], x + y;
    forall i | 0 <= i < |steps| ensures (steps[i].Choose? || steps[i].ExitStopped?) && StepTaken(states, steps, i) {
      if i < |x| {
        assert StepTaken(a, x, i);
      } else {
        assert StepTaken(b, y, i - |x|);
        assert states[i] == b[i - |x|];
      }
    }
  }

  lemma EndBlocked(s: State, w: nat) returns (states: seq<State>, steps: seq<Step>)
    requires Inv(s) && AllCanHear(s) && w in s.workers && s.workers[w].Blocked?
    ensures Draining(states, steps) && states[0] == s
    ensures var t := states[|steps|]; t == s.(workers := s.workers - {w}, wg := t.wg) && Inv(t)
  {
    assert CanHear(s, s.workers[w]);
    StepKeeps(s, ExitStopped(w));
    states, steps := [s, Next(s, ExitStopped(w))], [ExitStopped(w)];
    assert StepTaken(states, steps, 0);
  }

  lemma ChooseFirst(s: State, w: nat) returns (states: seq<State>, steps: seq<Step>)
    requires Inv(s) && AllCanHear(s) && w in s.workers && s.workers[w].Looping?
    ensures Draining(states, steps) && states[0] == s
    ensures states[|steps|] == s.(workers := s.workers[w := Blocked(Current(s))])
    ensures Inv(states[|steps|]) && AllCanHear(states[|steps|])
  {
    assert CanHear(s, s.workers[w]);
    StepKeeps(s, Choose(w));
    states, steps := [s, Next(s, Choose(w))], [Choose(w)];
    assert StepTaken(states, steps, 0);
  }

  /** One goroutine looks at the channel, if it has not yet, and leaves. */
  lemma EndWorker(s: State, w: nat) returns (states: seq<State>, steps: seq<Step>)
    requires Inv(s) && AllCanHear(s) && w in s.workers
    ensures Draining(states, steps) && states[0] == s
    ensures var t := states[|steps|]; t == s.(workers := s.workers - {w}, wg := t.wg) && Inv(t)
  {
    if s.workers[w].Blocked? {
      states, steps := EndBlocked(s, w);
    } else {
      var a, x := ChooseFirst(s, w);
      var b, y := EndBlocked(a[|x|], w);
      assert s.workers[w := Blocked(Current(s))] - {w} == s.workers - {w};
      Join(a, x, b, y);
      states, steps := a + b[1..], x + y;
    }
  }

  /** The goroutines' own steps that end them one after another. */
  lemma {:induction false} Drain(s: State) returns (states: seq<State>, steps: seq<Step>)
    requires Inv(s) && AllCanHear(s)
    ensures Drains(s, states, steps) && states[|steps|].callers == s.callers
    decreases |s.workers|
  {
    states, steps := [s], [];
    if s.workers != map[] {
      var w :| w in s.workers;
      var a, x := EndWorker(s, w);
      RemoveOne(s.workers, w);
      assert forall v | v in a[|x|].workers :: CanHear(s, s.workers[v]);
      var b, y := Drain(a[|x|]);
      Join(a, x, b, y);
      states, steps := a + b[1..], x + y;
    }
  }

  lemma HeardBefore(s: State, step: Step)
    requires Inv(s) && Enabled(s, step) && (step.Choose? || step.ExitStopped?) && AllCanHear(Next(s, step))
    ensures AllCanHear(s)
  {
    var s' := Next(s, step);
    forall w | w in s.workers ensures CanHear(s, s.workers[w]) {
      if w in s'.workers {
        assert CanHear(s', s'.workers[w]);
      }
    }
  }

  lemma {:induction false} DrainedHeard(s: State, states: seq<State>, steps: seq<Step>, n: nat)
    requires Inv(s) && Drains(s, states, steps) && n <= |steps|
    ensures Inv(states[n]) && AllCanHear(states[n])
    decreases |steps| - n
  {
    DrainInv(s, states, steps, n);
    if n < |steps| {
      DrainedHeard(s, states, steps, n + 1);
      assert StepTaken(states, steps, n);
      HeardBefore(states[n], steps[n]);
    } else {
      NobodyLeft(states[n]);
    }
  }

  lemma {:induction false} DrainInv(s: State, states: seq<State>, steps: seq<Step>, n: nat)
    requires Inv(s) && Drains(s, states, steps) && n <= |steps|
    ensures Inv(states[n])
  {
    if n > 0 {
      DrainInv(s, states, steps, n - 1);
      assert StepTaken(states, steps, n - 1);
      StepKeeps(states[n - 1], steps[n - 1]);
    }
  }

  /**
    The goroutines' own steps, with no help from events or the context, can end every wait if and only if each
    goroutine blocked on a channel is blocked on a closed one and, if any is still about to look, the flag is up.
   */
  lemma DrainsExactly(s: State)
    requires Inv(s)
    ensures (exists states, steps :: Drains(s, states, steps)) <==> AllCanHear(s)
  {
    if AllCanHear(s) {
      var states, steps := Drain(s);
    }
    if states, steps :| Drains(s, states, steps) {
      DrainedHeard(s, states, steps, 0);
    }
  }

  /** The flag goes down only by a reset: unless a start fails, every goroutine started later finds the channel closed. */
  lemma {:induction false} StoppedStaysStopped(states: seq<State>, steps: seq<Step>, n: nat, m: nat)
    requires IsRun(states, steps) && n <= m <= |steps| && states[n].stopped
    requires forall i | n <= i < m :: !steps[i].Reset?
    ensures states[m].stopped && states[m].closings == states[n].closings
  {
    if n < m {
      StoppedStaysStopped(states, steps, n, m - 1);
      assert StepTaken(states, steps, m - 1);
    }
  }

  /**
    From its signal on, and while no failing start has replaced the channel since, a waiting stop is never
    stuck, provided no channel was lost before: the goroutines' own steps lead to the end of its wait.
   */
  lemma WaitingStopCanReturn(states: seq<State>, steps: seq<Step>, k: nat, n: nat, c: nat) returns (after: seq<State>, drain: seq<Step>)
    requires IsRun(states, steps) && k < n <= |steps| && ResetsFlagged(states, steps, n)
    requires steps[k] == Signal(c) && In(states[n], c, StopWait) && forall i | k < i < n :: !steps[i].Reset?
    ensures Drains(states[n], after, drain) && Enabled(after[|drain|], WaitDone(c))
  {
    ClosedAtMostOnce(states, steps, n);
    NoChannelLostExactly(states, steps, n);
    assert StepTaken(states, steps, k);
    StoppedStaysStopped(states, steps, k + 1, n);
    HeardWhenStopped(states[n]);
    after, drain := Drain(states[n]);
  }

  lemma HeardWhenStopped(s: State)
    requires Inv(s) && s.stopped && PastClosed(s)
    ensures AllCanHear(s)
  {
  }

  // ---- Two starts at once ----

  lemma Extend(states: seq<State>, steps: seq<Step>, step: Step) returns (states': seq<State>, steps': seq<Step>)
    requires IsRun(states, steps) && states[|steps|].closings != [] && Enabled(states[|steps|], step)
    ensures IsRun(states', steps') && |steps'| == |steps| + 1 && states'[|steps'|] == Next(states[|steps|], step)
  {
    states', steps' := states + [Next(states[|steps|], step)], steps + [step];
    forall i | 0 <= i < |steps'| ensures StepTaken(states', steps', i) {
      if i < |steps| {
        assert StepTaken(states, steps, i);
      }
    }
  }

  lemma TwoFailing() returns (states: seq<State>, steps: seq<Step>)
    ensures IsRun(states, steps)
    ensures states[|steps|] == State([1], true, 0, map[], map[0 := FailReset, 1 := FailReset])
  {
    states, steps := [FRESH], [];
    states, steps := Extend(states, steps, CallStart(0, 1));
    states, steps := Extend(states, steps, CallStart(1, 1));
    states, steps := Extend(states, steps, SubscribeFails(0));
    states, steps := Extend(states, steps, SubscribeFails(1));
    states, steps := Extend(states, steps, Signal(0));
    states, steps := Extend(states, steps, Signal(1));
    states, steps := Extend(states, steps, WaitDone(0));
    states, steps := Extend(states, steps, WaitDone(1));
  }

  /**
    Two starts that fail together replace the channel twice: a goroutine of a third start can be left blocked
    on a channel that is open and no longer in the field, so that no later stop can close it.
   */
  lemma ConcurrentStartsLoseAChannel() returns (states: seq<State>, steps: seq<Step>)
    ensures IsRun(states, steps)
    ensures var s := states[|steps|];
            && s.closings != [] && 7 in s.workers && s.workers[7].Blocked?
            && s.workers[7].gen < Current(s) && s.closings[s.workers[7].gen] == 0
  {
    states, steps := TwoFailing();
    states, steps := Extend(states, steps, Reset(0));
    states, steps := Extend(states, steps, CallStart(2, 1));
    states, steps := Extend(states, steps, Subscribe(2, 7));
    states, steps := Extend(states, steps, Choose(7));
    states, steps := Extend(states, steps, Reset(1));
  }

  // ---- The fields ----

  /** A stop channel; closing it twice is excluded by the precondition. */
  class StopChannel {
    var closed: bool

    constructor ()
      ensures !closed
    {
      closed := false;
    }

    method Close()
      requires !closed
      modifies this
      ensures closed
    {
      closed := true;
    }
  }

  ghost function Counts(channels: seq<StopChannel>): seq<nat>
    reads channels
  {
    seq(|channels|, i requires 0 <= i < |channels| reads channels => if channels[i].closed then 1 else 0)
  }

  /** The consumer's handlers and stop state, with every channel it ever had. */
  class Consumer<H> {
    var handlers: map<string, H>
    var stopCh: StopChannel
    var stopped: bool
    ghost var past: seq<StopChannel>

    ghost function Closings(): seq<nat>
      reads this, past, stopCh
    {
      Counts(past + [stopCh])
    }

    ghost predicate Valid()
      reads this, stopCh
    {
      stopCh !in past && (stopped <==> stopCh.closed)
    }

    constructor ()
      ensures Valid() && !stopped && handlers == map[] && past == []
    {
      handlers, stopped, past := map[], false, [];
      stopCh := new StopChannel();
    }

    method RegisterHandler(eventType: string, handler: H)
      modifies this`handlers
      ensures handlers == old(handlers)[eventType := handler]
    {
      handlers := handlers[eventType := handler];
    }

    /** An event of a type nobody registered for is let go. */
    method HandlerFor(eventType: string) returns (handler: Option<H>)
      ensures handler == if eventType in handlers then Some(handlers[eventType]) else None
    {
      return if eventType in handlers then Some(handlers[eventType]) else None;
    }

    /** The lock section of signalStopAndWait. */
    method SignalStop(ghost s: State)
      requires Valid() && s.closings == Closings() && s.stopped == stopped
      modifies this`stopped, stopCh
      ensures Valid() && stopped
      ensures Signalled(s).closings == Closings() && Signalled(s).stopped == stopped
    {
      if !stopped {
        stopCh.Close();
        stopped := true;
      }
    }

    /** The lock section of resetStopState. */
    method ResetStopState(ghost s: State)
      requires Valid() && s.closings == Closings() && s.stopped == stopped
      modifies this
      ensures Valid() && !stopped && past == old(past) + [old(stopCh)] && handlers == old(handlers)
      ensures Replaced(s).closings == Closings() && Replaced(s).stopped == stopped
    {
      past := past + [stopCh];
      stopCh := new StopChannel();
      stopped := false;
    }
  }
}
