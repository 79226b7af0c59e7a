/** Concurrent `/ocr` handlers, the resource manager and the shutdown signal: reading the flags,
    checking the queue length and tracking the request are separate steps. */
module Admission {
  import opened ResultsStorage
  import OcrHttpHandler
  import OcrRpcClients
  import ResManager

  /** `Checking` has read an open service, `Admitted` has passed the queue check and has not
      yet tracked its request (or finished without tracking one). */
  datatype Handler = Idle | Checking | Admitted

  /** `bound` is NumConsumers times the factor, `maxBound` the largest such product so far. */
  datatype State = State(
    handlers: seq<Handler>,
    tracked: nat,
    canAccept: bool,
    appStop: bool,
    signalled: bool,
    exiting: bool,
    bound: nat,
    maxBound: nat)

  datatype Step =
    | Enter(h: nat)
    | Check(h: nat)
    | Track(h: nat)
    | Leave(h: nat)                      // rejected later, failed, or not deferred
    | Untrack
    | Poll(bound: nat, verdict: bool)    // the resource manager stores the verdict of its round
    | Signal
    | Stop
    | Exit                               // the drain loop reads zero

  function Start(k: nat): State {
    State(seq(k, i => Idle), 0, false, false, false, false, 0, 0)
  }

  predicate At(s: State, h: nat, x: Handler) { h < |s.handlers| && s.handlers[h] == x }

  predicate Enabled(s: State, step: Step) {
    match step
    case Enter(h) => At(s, h, Idle)
    case Check(h) => At(s, h, Checking)
    case Track(h) => At(s, h, Admitted)
    case Leave(h) => At(s, h, Admitted)
    case Untrack => s.tracked > 0
    case Poll(b, verdict) => !s.appStop
    case Signal => true
    case Stop => s.signalled && !s.appStop
    case Exit => s.signalled && Wrap32(s.tracked) == 0
  }

  function To(s: State, h: nat, x: Handler): State
    requires h < |s.handlers|
  {
    s.(handlers := s.handlers[h := x])
  }

  function Apply(s: State, step: Step): State
    requires Enabled(s, step)
  {
    match step
    case Enter(h) => To(s, h, if s.canAccept then Checking else Idle)
    case Check(h) => To(s, h, if Wrap32(s.tracked) < s.bound then Admitted else Idle)
    case Track(h) => To(s, h, Idle).(tracked := s.tracked + 1)
    case Leave(h) => To(s, h, Idle)
    case Untrack => s.(tracked := s.tracked - 1)
    case Poll(b, verdict) => s.(bound := b, canAccept := verdict, maxBound := if b > s.maxBound then b else s.maxBound)
    case Signal => s.(signalled := true)
    case Stop => s.(appStop := true, canAccept := false)
    case Exit => s.(exiting := true)
  }

  predicate Valid(s: State, steps: seq<Step>)
    decreases |steps|
  {
    steps == [] || (Enabled(s, steps[0]) && Valid(Apply(s, steps[0]), steps[1..]))
  }

  function Run(s: State, steps: seq<Step>): State
    requires Valid(s, steps)
    decreases |steps|
  {
    if steps == [] then s else Run(Apply(s, steps[0]), steps[1..])
  }

  function Count(hs: seq<Handler>, x: Handler): (n: nat)
    ensures n <= |hs|
  {
    if hs == [] then 0 else Count(hs[..|hs| - 1], x) + if hs[|hs| - 1] == x then 1 else 0
  }

  lemma {:induction false} CountTo(hs: seq<Handler>, h: nat, y: Handler, x: Handler)
    requires h < |hs|
    ensures Count(hs[h := y], x) == Count(hs, x) - (if hs[h] == x then 1 else 0) + (if y == x then 1 else 0)
  {
    var n := |hs| - 1;
    if h < n {
      assert hs[h := y][..n] == hs[..n][h := y];
      CountTo(hs[..n], h, y, x);
    } else {
      assert hs[h := y][..n] == hs[..n];
    }
  }

  lemma {:induction false} RunCons(s: State, step: Step, rest: seq<Step>)
    requires Enabled(s, step) && Valid(Apply(s, step), rest)
    ensures Valid(s, [step] + rest) && Run(s, [step] + rest) == Run(Apply(s, step), rest)
  {
    assert ([step] + rest)[1..] == rest;
  }

  lemma {:induction false} RunAppend(s: State, a: seq<Step>, b: seq<Step>)
    requires Valid(s, a) && Valid(Run(s, a), b)
    ensures Valid(s, a + b) && Run(s, a + b) == Run(Run(s, a), b)
    decreases |a|
  {
    if a == [] {
      assert a + b == b;
    } else {
      RunAppend(Apply(s, a[0]), a[1..], b);
      assert (a + b)[1..] == a[1..] + b;
    }
  }

  // ----- the steps and the code behind them -----

  function BoundOf(v: ResManager.View): nat { ResManager.Wrap64(v.numConsumers * v.factor) }

  /** The manager's globals, as the handlers see them. */
  predicate Matches(s: State, v: ResManager.View) {
    s.canAccept == v.canAccept && s.appStop == v.appStop && s.bound == BoundOf(v)
  }

  /** The step behind a round of the polling loop. */
  function RoundStep(v: ResManager.View, p: ResManager.Poll): Step {
    if p.Stop? then Stop else Poll(BoundOf(ResManager.Round(v, p)), ResManager.Round(v, p).canAccept)
  }

  /** Every round of the polling loop is a step here: the stop once the signal came, or a poll,
      whenever in the past it read the counter. */
  lemma RoundIsStep(s: State, v: ResManager.View, p: ResManager.Poll)
    requires Matches(s, v) && !v.appStop && (p.Stop? ==> s.signalled)
    ensures Enabled(s, RoundStep(v, p)) && Matches(Apply(s, RoundStep(v, p)), ResManager.Round(v, p))
  {
  }

  /** And nobody else changes what the manager sees. */
  lemma OthersKeepMatching(s: State, v: ResManager.View, step: Step)
    requires Matches(s, v) && Enabled(s, step) && !step.Poll? && !step.Stop?
    ensures Matches(Apply(s, step), v)
  {
  }

  /** Steps of everybody but handler `h`. */
  predicate Spares(steps: seq<Step>, h: nat) {
    forall k :: 0 <= k < |steps| && (steps[k].Enter? || steps[k].Check? || steps[k].Track? || steps[k].Leave?) ==>
      steps[k].h != h
  }

  lemma {:induction false} SparedRun(s: State, steps: seq<Step>, h: nat)
    requires Valid(s, steps) && Spares(steps, h) && h < |s.handlers|
    ensures h < |Run(s, steps).handlers| && Run(s, steps).handlers[h] == s.handlers[h]
    decreases |steps|
  {
    if steps != [] {
      assert Spares(steps[1..], h) by {
        assert forall k :: 0 <= k < |steps[1..]| ==> steps[1..][k] == steps[k + 1];
      }
      assert Spares(steps[..1], h);
      var first := steps[0];
      assert Apply(s, first).handlers[h] == s.handlers[h];
      SparedRun(Apply(s, first), steps[1..], h);
    }
  }

  /** The handler's guard is `Enter` and `Check`, with anything in between: it admits exactly if
      the flags read first and the counter and the bound read later satisfy `Admits`. */
  lemma GuardIsSteps(s: State, h: nat, between: seq<Step>)
    requires At(s, h, Idle) && Valid(Apply(s, Enter(h)), between) && Spares(between, h)
    ensures var t := Run(Apply(s, Enter(h)), between);
            && (s.canAccept ==> Enabled(t, Check(h)))
            && (!s.canAccept ==> At(t, h, Idle))
            && (s.canAccept && At(Apply(t, Check(h)), h, Admitted) <==>
                  OcrHttpHandler.Admits(OcrHttpHandler.Flags(s.canAccept, s.appStop), Wrap32(t.tracked), t.bound))
  {
    SparedRun(Apply(s, Enter(h)), between, h);
  }

  /** What the client does for an admitted request is `Track` if it tracks the request and `Leave`
      if not: the counter of the table goes along. */
  lemma OutcomeIsStep(s: State, h: nat, t: Table, id: string, d: OcrRpcClients.Decoded)
    requires At(s, h, Admitted) && t.length == Wrap32(s.tracked)
    ensures var step := if d.tracked then Track(h) else Leave(h);
            var after := if d.tracked then Added(t, id) else t;
            Enabled(s, step) && after.length == Wrap32(Apply(s, step).tracked)
  {
    WrapStep(s.tracked);
  }

  // ----- the overshoot bound -----

  function Load(s: State): nat { s.tracked + Count(s.handlers, Admitted) }

  /** B - 1 + K for K handlers; nothing at all before the first positive bound. */
  function Cap(s: State): nat {
    if s.maxBound == 0 then 0 else s.maxBound - 1 + |s.handlers|
  }

  predicate Bounded(s: State) {
    s.bound <= s.maxBound && (Cap(s) < 0x1_0000_0000 ==> Load(s) <= Cap(s))
  }

  lemma CheckKeepsBounded(s: State, h: nat)
    requires Bounded(s) && Enabled(s, Check(h))
    ensures Bounded(Apply(s, Check(h)))
  {
    CountTo(s.handlers, h, if Wrap32(s.tracked) < s.bound then Admitted else Idle, Admitted);
    if Cap(s) < 0x1_0000_0000 {
      assert s.tracked < 0x1_0000_0000 && Wrap32(s.tracked) == s.tracked;
    }
  }

  lemma StepKeepsBounded(s: State, step: Step)
    requires Bounded(s) && Enabled(s, step)
    ensures Bounded(Apply(s, step)) && |Apply(s, step).handlers| == |s.handlers|
  {
    match step
    case Enter(h) => CountTo(s.handlers, h, if s.canAccept then Checking else Idle, Admitted);
    case Check(h) => CheckKeepsBounded(s, h);
    case Track(h) => CountTo(s.handlers, h, Idle, Admitted);
    case Leave(h) => CountTo(s.handlers, h, Idle, Admitted);
    case _ =>
  }

  lemma {:induction false} RunKeepsBounded(s: State, steps: seq<Step>)
    requires Bounded(s) && Valid(s, steps)
    ensures Bounded(Run(s, steps)) && |Run(s, steps).handlers| == |s.handlers|
    decreases |steps|
  {
    if steps != [] {
      StepKeepsBounded(s, steps[0]);
      RunKeepsBounded(Apply(s, steps[0]), steps[1..]);
    }
  }

  lemma {:induction false} AllIdle(k: nat, x: Handler)
    requires x != Idle
    ensures Count(Start(k).handlers, x) == 0
  {
    if k > 0 {
      AllIdle(k - 1, x);
      assert Start(k).handlers[..k - 1] == Start(k - 1).handlers;
    }
  }

  /** Tracked and admitted requests never exceed B - 1 + K, where K handlers run at a time and B
      is the largest bound so far, as long as that fits the 32-bit counter. */
  lemma AdmissionBound(k: nat, steps: seq<Step>)
    requires Valid(Start(k), steps)
    ensures var s := Run(Start(k), steps);
            s.maxBound >= 1 && s.maxBound - 1 + k < 0x1_0000_0000 ==>
              s.tracked + Count(s.handlers, Admitted) <= s.maxBound - 1 + k
  {
    AllIdle(k, Admitted);
    RunKeepsBounded(Start(k), steps);
  }

  /** One handler at a time never tracks more requests than the bound. */
  lemma SingleHandlerKeepsBound(steps: seq<Step>)
    requires Valid(Start(1), steps)
    ensures var s := Run(Start(1), steps);
            1 <= s.maxBound < 0x1_0000_0000 ==> s.tracked <= s.maxBound
  {
    AdmissionBound(1, steps);
  }

  /** The bound is attained: fill the table one by one up to B - 1, then let all K handlers
      check before any of them tracks. */
  lemma BoundIsAttained(k: nat, b: nat) returns (steps: seq<Step>)
    requires k >= 1 && 1 <= b < 0x1_0000_0000
    ensures Valid(Start(k), steps)
    ensures var s := Run(Start(k), steps);
            s.maxBound == b && s.tracked + Count(s.handlers, Admitted) == b - 1 + k
  {
    steps := OpenAndFill(k, b, b - 1);
    var s := Run(Start(k), steps);
    AllIdle(k, Admitted);
    var rush := Rush(s, k);
    RunAppend(Start(k), steps, rush);
    steps := steps + rush;
  }

  /** The service opens with the bound `b` and `n` requests come in one after the other. */
  lemma OpenAndFill(k: nat, b: nat, n: nat) returns (steps: seq<Step>)
    requires k >= 1 && (b >= 0x1_0000_0000 || n <= b)
    ensures Valid(Start(k), steps)
    ensures Run(Start(k), steps) == Start(k).(canAccept := true, bound := b, maxBound := b, tracked := n)
  {
    var s := Apply(Start(k), Poll(b, true));
    steps := Fill(s, n);
    RunCons(Start(k), Poll(b, true), steps);
    steps := [Poll(b, true)] + steps;
  }

  lemma {:induction false} Fill(s: State, n: nat) returns (steps: seq<Step>)
    requires s.canAccept && At(s, 0, Idle) && (s.bound >= 0x1_0000_0000 || s.tracked + n <= s.bound)
    ensures Valid(s, steps) && Run(s, steps) == s.(tracked := s.tracked + n)
    decreases n
  {
    if n == 0 {
      steps := [];
    } else {
      steps := ServeOne(s);
      var rest := Fill(s.(tracked := s.tracked + 1), n - 1);
      RunAppend(s, steps, rest);
      steps := steps + rest;
    }
  }

  lemma ServeOne(s: State) returns (steps: seq<Step>)
    requires s.canAccept && At(s, 0, Idle) && Wrap32(s.tracked) < s.bound
    ensures Valid(s, steps) && Run(s, steps) == s.(tracked := s.tracked + 1)
  {
    var a := Apply(s, Enter(0));
    var b := Apply(a, Check(0));
    var c := Apply(b, Track(0));
    assert c == s.(tracked := s.tracked + 1) by { assert c.handlers == s.handlers; }
    RunCons(b, Track(0), []);
    RunCons(a, Check(0), [Track(0)]);
    RunCons(s, Enter(0), [Check(0)] + [Track(0)]);
    steps := [Enter(0)] + ([Check(0)] + [Track(0)]);
  }

  /** The first `n` handlers, all idle, pass their checks. */
  lemma {:induction false} Rush(s: State, n: nat) returns (steps: seq<Step>)
    requires s.canAccept && Wrap32(s.tracked) < s.bound && n <= |s.handlers|
    requires forall h :: 0 <= h < n ==> s.handlers[h] == Idle
    ensures Valid(s, steps)
    ensures var t := Run(s, steps);
            && t == s.(handlers := t.handlers) && Count(t.handlers, Admitted) == Count(s.handlers, Admitted) + n
            && |t.handlers| == |s.handlers| && (forall h :: 0 <= h < n ==> t.handlers[h] == Admitted)
            && (forall h :: n <= h < |s.handlers| ==> t.handlers[h] == s.handlers[h])
    decreases n
  {
    if n == 0 {
      steps := [];
    } else {
      var h := n - 1;
      var a := Apply(s, Enter(h));
      var b := Apply(a, Check(h));
      CountTo(s.handlers, h, Checking, Admitted);
      CountTo(a.handlers, h, Admitted, Admitted);
      var rest := Rush(b, h);
      RunCons(a, Check(h), rest);
      RunCons(s, Enter(h), [Check(h)] + rest);
      steps := [Enter(h)] + ([Check(h)] + rest);
    }
  }

  /** The first `n` handlers, all admitted, track their requests. */
  lemma {:induction false} Settle(s: State, n: nat) returns (steps: seq<Step>)
    requires n <= |s.handlers| && forall h :: 0 <= h < n ==> s.handlers[h] == Admitted
    ensures Valid(s, steps)
    ensures var t := Run(s, steps);
            && t == s.(handlers := t.handlers, tracked := s.tracked + n)
            && Count(t.handlers, Admitted) == Count(s.handlers, Admitted) - n
            && |t.handlers| == |s.handlers| && (forall h :: 0 <= h < n ==> t.handlers[h] == Idle)
            && (forall h :: n <= h < |s.handlers| ==> t.handlers[h] == s.handlers[h])
    decreases n
  {
    if n == 0 {
      steps := [];
    } else {
      var h := n - 1;
      var a := Apply(s, Track(h));
      CountTo(s.handlers, h, Idle, Admitted);
      var rest := Settle(a, h);
      RunCons(s, Track(h), rest);
      steps := [Track(h)] + rest;
    }
  }

  /** When B - 1 + K does not fit the counter, some run exceeds it: the counter turns over while
      handlers are admitted, and reads zero to the next one. */
  lemma BoundIsExceeded(k: nat, b: nat) returns (steps: seq<Step>)
    requires k >= 1 && b >= 1 && b - 1 + k >= 0x1_0000_0000
    ensures Valid(Start(k), steps)
    ensures var s := Run(Start(k), steps);
            s.maxBound == b && s.tracked + Count(s.handlers, Admitted) > b - 1 + k
  {
    AllIdle(k, Admitted);
    if b >= 0x1_0000_0000 {
      steps := OpenAndFill(k, b, b + k);
    } else {
      steps := OpenAndFill(k, b, b - 1);
      var s1 := Run(Start(k), steps);
      var rush := Rush(s1, k);
      var s2 := Run(s1, rush);
      RunAppend(Start(k), steps, rush);
      steps := steps + rush;
      var settle := Settle(s2, 0x1_0000_0000 - (b - 1));
      var s3 := Run(s2, settle);
      RunAppend(Start(k), steps, settle);
      steps := steps + settle;
      var one := Rush(s3, 1);
      RunAppend(Start(k), steps, one);
      steps := steps + one;
    }
  }

  /** The condition is exact: the bound B - 1 + K holds in all runs if and only if it fits. */
  lemma BoundHoldsIffFits(k: nat, b: nat)
    requires k >= 1 && b >= 1
    ensures (forall steps :: Valid(Start(k), steps) && Run(Start(k), steps).maxBound == b ==>
               Load(Run(Start(k), steps)) <= b - 1 + k)
            <==> b - 1 + k < 0x1_0000_0000
  {
    if b - 1 + k < 0x1_0000_0000 {
      forall steps | Valid(Start(k), steps) && Run(Start(k), steps).maxBound == b
        ensures Load(Run(Start(k), steps)) <= b - 1 + k
      {
        AdmissionBound(k, steps);
      }
    } else {
      var steps := BoundIsExceeded(k, b);
    }
  }

  // ----- draining -----

  /** Requests that are tracked or may still become so. */
  function Pending(s: State): nat {
    s.tracked + Count(s.handlers, Admitted) + Count(s.handlers, Checking)
  }

  lemma DrainStep(s: State, step: Step)
    requires s.appStop && !s.canAccept && Enabled(s, step)
    ensures var t := Apply(s, step); t.appStop && !t.canAccept && Pending(t) <= Pending(s)
  {
    if step.Enter? || step.Check? || step.Track? || step.Leave? {
      var t := Apply(s, step);
      CountTo(s.handlers, step.h, t.handlers[step.h], Admitted);
      CountTo(s.handlers, step.h, t.handlers[step.h], Checking);
    }
  }

  /** Once the stop flag is set the service stays closed and the requests that are tracked or
      pending never grow in number. */
  lemma {:induction false} Drain(s: State, steps: seq<Step>)
    requires s.appStop && !s.canAccept && Valid(s, steps)
    ensures var t := Run(s, steps); t.appStop && !t.canAccept && Pending(t) <= Pending(s)
    decreases |steps|
  {
    if steps != [] {
      DrainStep(s, steps[0]);
      Drain(Apply(s, steps[0]), steps[1..]);
    }
  }

  lemma {:induction false} StopCloses(s: State, steps: seq<Step>)
    requires Valid(s, steps) && (s.appStop ==> !s.canAccept)
    ensures Run(s, steps).appStop ==> !Run(s, steps).canAccept
    decreases |steps|
  {
    if steps != [] {
      StopCloses(Apply(s, steps[0]), steps[1..]);
    }
  }

  /** Nothing is tracked and nothing ever will be: the service is stopped, nobody is admitted,
      and whoever still has to pass the queue check will not. */
  predicate Drained(s: State) {
    && s.appStop && s.tracked == 0
    && Count(s.handlers, Admitted) == 0
    && (s.bound == 0 || Count(s.handlers, Checking) == 0)
  }

  lemma DrainedStep(s: State, step: Step)
    requires Drained(s) && !s.canAccept && Enabled(s, step)
    ensures Drained(Apply(s, step)) && !Apply(s, step).canAccept
  {
    if step.Enter? || step.Check? || step.Track? || step.Leave? {
      var t := Apply(s, step);
      CountTo(s.handlers, step.h, t.handlers[step.h], Admitted);
      CountTo(s.handlers, step.h, t.handlers[step.h], Checking);
    }
  }

  lemma {:induction false} DrainedRun(s: State, steps: seq<Step>)
    requires Drained(s) && !s.canAccept && Valid(s, steps)
    ensures Run(s, steps).tracked == 0
    decreases |steps|
  {
    if steps != [] {
      DrainedStep(s, steps[0]);
      DrainedRun(Apply(s, steps[0]), steps[1..]);
    }
  }

  lemma {:induction false} SomeHandler(hs: seq<Handler>, x: Handler) returns (h: nat)
    requires Count(hs, x) > 0
    ensures h < |hs| && hs[h] == x
  {
    h := |hs| - 1;
    if hs[h] != x {
      h := SomeHandler(hs[..h], x);
    }
  }

  /** From an admitted or checking handler to a tracked request. */
  lemma Admit(s: State, h: nat) returns (steps: seq<Step>)
    requires At(s, h, Admitted) || (At(s, h, Checking) && Wrap32(s.tracked) < s.bound)
    ensures Valid(s, steps) && Run(s, steps).tracked == s.tracked + 1
  {
    if s.handlers[h] == Admitted {
      RunCons(s, Track(h), []);
      steps := [Track(h)];
    } else {
      var a := Apply(s, Check(h));
      RunCons(a, Track(h), []);
      RunCons(s, Check(h), [Track(h)]);
      steps := [Check(h)] + [Track(h)];
    }
  }

  lemma Reopen(s: State) returns (steps: seq<Step>)
    requires !s.appStop && s.tracked == 0 && Count(s.handlers, Admitted) == 0 && |s.handlers| > 0
    ensures Valid(s, steps) && Run(s, steps).tracked == 1
  {
    var a := Apply(s, Poll(1, true));
    if s.handlers[0] == Idle {
      var b := Apply(a, Enter(0));
      var rest := Admit(b, 0);
      RunCons(a, Enter(0), rest);
      RunCons(s, Poll(1, true), [Enter(0)] + rest);
      steps := [Poll(1, true)] + ([Enter(0)] + rest);
    } else {
      var rest := Admit(a, 0) by {
        if s.handlers[0] == Admitted { CountTo(s.handlers, 0, Idle, Admitted); }
      }
      RunCons(s, Poll(1, true), rest);
      steps := [Poll(1, true)] + rest;
    }
  }

  /** The drain test is final exactly in drained states: from any other reachable state with an
      empty table, some continuation tracks a request again. */
  lemma DrainedIffFinal(k: nat, past: seq<Step>) returns (future: seq<Step>)
    requires k > 0 && Valid(Start(k), past)
    ensures Valid(Run(Start(k), past), future)
    ensures Drained(Run(Start(k), past)) ==>
              forall f :: Valid(Run(Start(k), past), f) ==> Run(Run(Start(k), past), f).tracked == 0
    ensures !Drained(Run(Start(k), past)) ==> Run(Run(Start(k), past), future).tracked > 0
  {
    var s := Run(Start(k), past);
    StopCloses(Start(k), past);
    AllIdle(k, Admitted);
    RunKeepsBounded(Start(k), past);
    future := [];
    if Drained(s) {
      forall f | Valid(s, f)
        ensures Run(s, f).tracked == 0
      {
        DrainedRun(s, f);
      }
    } else if s.tracked > 0 {
    } else if Count(s.handlers, Admitted) > 0 {
      var h := SomeHandler(s.handlers, Admitted);
      future := Admit(s, h);
    } else if !s.appStop {
      future := Reopen(s);
    } else {
      var h := SomeHandler(s.handlers, Checking);
      future := Admit(s, h);
    }
  }

  // ----- the drain loop -----

  /** What the others do while the loop sleeps, in the first `n` naps. */
  predicate ValidNaps(s: State, naps: seq<seq<Step>>, n: nat)
    requires n <= |naps|
    decreases n, 0
  {
    n == 0 || (ValidNaps(s, naps, n - 1) && Valid(AfterNaps(s, naps, n - 1), naps[n - 1]))
  }

  function AfterNaps(s: State, naps: seq<seq<Step>>, n: nat): State
    requires n <= |naps| && ValidNaps(s, naps, n)
    decreases n, 1
  {
    if n == 0 then s else Run(AfterNaps(s, naps, n - 1), naps[n - 1])
  }

  lemma {:induction false} EarlierNaps(s: State, naps: seq<seq<Step>>, n: nat, m: nat)
    requires n <= m <= |naps| && ValidNaps(s, naps, m)
    ensures ValidNaps(s, naps, n)
    decreases m
  {
    if n < m {
      EarlierNaps(s, naps, n, m - 1);
    }
  }

  /** The counter as the loop reads it after `n` naps is not zero. */
  predicate Busy(s: State, naps: seq<seq<Step>>, n: nat)
    requires n <= |naps| && ValidNaps(s, naps, n)
  {
    Wrap32(AfterNaps(s, naps, n).tracked) != 0
  }

  predicate Draining(s: State) { s.appStop && !s.canAccept }

  lemma OneNap(s: State, naps: seq<seq<Step>>, n: nat)
    requires n < |naps| && ValidNaps(s, naps, |naps|) && ValidNaps(s, naps, n)
    ensures ValidNaps(s, naps, n + 1)
    ensures var a, b := AfterNaps(s, naps, n), AfterNaps(s, naps, n + 1);
            && Valid(a, naps[n]) && b == Run(a, naps[n])
            && (Draining(a) ==> Draining(b) && Pending(b) <= Pending(a))
  {
    EarlierNaps(s, naps, n + 1, |naps|);
    if Draining(AfterNaps(s, naps, n)) { Drain(AfterNaps(s, naps, n), naps[n]); }
  }

  /** The loop of the signal goroutine: it ends at the first zero. Started after the stop, it
      waits for no more requests than were pending then. */
  method AwaitEmptyQueue(s: State, naps: seq<seq<Step>>) returns (slept: nat, empty: bool)
    requires ValidNaps(s, naps, |naps|)
    ensures slept <= |naps| && (!empty ==> slept == |naps|)
    ensures forall n :: 0 <= n <= slept ==> ValidNaps(s, naps, n)
    ensures forall n :: 0 <= n < slept ==> Busy(s, naps, n)
    ensures empty <==> !Busy(s, naps, slept)
    ensures Draining(s) ==> Pending(AfterNaps(s, naps, slept)) <= Pending(s)
  {
    slept := 0;
    var now := s;
    while true
      invariant slept <= |naps|
      invariant forall n :: 0 <= n <= slept ==> ValidNaps(s, naps, n)
      invariant forall n :: 0 <= n < slept ==> Busy(s, naps, n)
      invariant now == AfterNaps(s, naps, slept)
      invariant Draining(s) ==> Draining(now) && Pending(now) <= Pending(s)
      decreases |naps| - slept
    {
      if Wrap32(now.tracked) == 0 {
        return slept, true;
      }
      if slept == |naps| {
        return slept, false;
      }
      OneNap(s, naps, slept);
      now := Run(now, naps[slept]);
      slept := slept + 1;
    }
  }

  /** The exit test alone is not enough: a signal arriving while the table is empty is answered
      with an exit although the resource manager has not stopped the service yet, and a request
      admitted in the meantime is tracked when the process ends. */
  lemma ExitMayAbandon() returns (steps: seq<Step>)
    ensures Valid(Start(1), steps)
    ensures Run(Start(1), steps).exiting && Run(Start(1), steps).tracked == 1
  {
    var s1 := Apply(Start(1), Signal);
    var s2 := Apply(s1, Exit);
    var rest := Reopen(s2) by { AllIdle(1, Admitted); }
    ExitIsRemembered(s2, rest);
    RunCons(s1, Exit, rest);
    RunCons(Start(1), Signal, [Exit] + rest);
    steps := [Signal] + ([Exit] + rest);
  }

  lemma {:induction false} ExitIsRemembered(s: State, steps: seq<Step>)
    requires s.exiting && Valid(s, steps)
    ensures Run(s, steps).exiting
    decreases |steps|
  {
    if steps != [] {
      ExitIsRemembered(Apply(s, steps[0]), steps[1..]);
    }
  }
}
