/** Without faults, every published request is answered. */
module LifecycleDelivery {
  import opened OcrTypes
  import opened OcrRequests
  import opened Pipeline
  import opened Lifecycle
  import opened LifecycleInv
  import opened LifecycleTheorems
  import opened LifecycleProgress

  predicate Faulty(step: Step) { step.PreFail? || step.Lose? || step.Disconnect? }

  ghost predicate FaultFree(steps: seq<Step>) {
    forall k :: 0 <= k < |steps| ==> !Faulty(steps[k])
  }

  /** A message ended without an acknowledgement only if its chain has an unbound name. */
  predicate Excused(w: World, clients: map<string, Client>, e: Ending) {
    e.reason == Acknowledged || (e.corr in clients && !AllBound(w, clients[e.corr].submitted.chain))
  }

  ghost predicate AllExcused(w: World, clients: map<string, Client>, endings: seq<Ending>) {
    forall k :: 0 <= k < |endings| ==> Excused(w, clients, endings[k])
  }

  ghost predicate NobodyLost(clients: map<string, Client>) {
    forall id :: id in clients ==> !clients[id].lost
  }

  lemma UnboundOnWire(w: World, r: Request, key: string, body: Request)
    requires SomePublication(w, r, key, body) && !Bound(w, key)
    ensures !AllBound(w, r.chain)
  {
    var k :| OnWire(w, r, key, body, k);
    assert r.chain[|r.chain| - k - 1] == key;
  }

  /** The ending that a step adds, if any, is excused. */
  predicate ExcusedChange(w: World, s: State, d: NetChange) {
    && (d.Unsent? ==> Excused(w, s.clients, d.ending))
    && (d.End? ==> d.n < |s.net| && Excused(w, s.clients, Ending(s.net[d.n].msg.corr, d.reason)))
  }

  lemma UnsentIsExcused(w: World, s: State, step: Step)
    requires WellConfigured(w) && ClientsInv(w, s) && Enabled(w, s, step) && step.Publish?
    ensures ExcusedChange(w, s, NetStep(w, s, step))
  {
    var r := Normalised(w, s.clients[step.id].submitted).value;
    FirstOnWire(w, r);
    if NetStep(w, s, step).Unsent? {
      UnboundOnWire(w, r, NextKey(w, r.chain), r.(chain := Popped(r.chain)));
    }
  }

  lemma UnforwardedIsExcused(w: World, s: State, step: Step)
    requires WellConfigured(w) && NetInv(w, s) && Enabled(w, s, step) && step.PreDone?
    ensures ExcusedChange(w, s, NetStep(w, s, step))
  {
    var x := s.net[step.n];
    assert GoodItem(w, s.clients, x);
    var r := Normalised(w, s.clients[x.msg.corr].submitted).value;
    var k :| OnWire(w, r, x.place.key, x.msg.body, k);
    HopOnWire(w, r, x.place.key, x.msg.body, k);
    if NetStep(w, s, step).End? {
      UnboundOnWire(w, r, NextKey(w, x.msg.body.chain), Hop(w, x.place.key, x.msg.body));
    }
  }

  lemma MisdeliveredIsExcused(w: World, s: State, step: Step)
    requires WellConfigured(w) && NetInv(w, s) && Enabled(w, s, step) && step.Misdeliver?
    ensures ExcusedChange(w, s, NetStep(w, s, step))
  {
    var x := s.net[step.n];
    assert GoodItem(w, s.clients, x);
    UnboundOnWire(w, Normalised(w, s.clients[x.msg.corr].submitted).value, x.place.key, x.msg.body);
  }

  lemma NewEndingIsExcused(w: World, s: State, step: Step)
    requires WellConfigured(w) && NetInv(w, s) && ClientsInv(w, s) && Enabled(w, s, step) && !Faulty(step)
    ensures ExcusedChange(w, s, NetStep(w, s, step))
  {
    if step.Publish? {
      UnsentIsExcused(w, s, step);
    } else if step.PreDone? {
      UnforwardedIsExcused(w, s, step);
    } else if step.Misdeliver? {
      MisdeliveredIsExcused(w, s, step);
    } else {
      OnlyAcknowledged(w, s, step);
    }
  }

  lemma OnlyAcknowledged(w: World, s: State, step: Step)
    requires Enabled(w, s, step) && !Faulty(step) && !step.Publish? && !step.PreDone? && !step.Misdeliver?
    ensures ExcusedChange(w, s, NetStep(w, s, step))
  {
  }

  lemma ExcusedStep(w: World, s: State, step: Step)
    requires WellConfigured(w) && NetInv(w, s) && ClientsInv(w, s) && Enabled(w, s, step) && !Faulty(step)
    requires AllExcused(w, s.clients, s.endings)
    ensures AllExcused(w, Apply(w, s, step).clients, Apply(w, s, step).endings)
  {
    NewEndingIsExcused(w, s, step);
    StepExtends(w, s, step);
    StillExcused(w, s.clients, Apply(w, s, step).clients, s.net, s.endings, NetStep(w, s, step));
  }

  lemma StillExcused(w: World, c: map<string, Client>, c': map<string, Client>, net: seq<Item>, endings: seq<Ending>,
                     d: NetChange)
    requires AllExcused(w, c, endings) && Extends(c, c')
    requires d.Unsent? ==> Excused(w, c, d.ending)
    requires d.End? ==> d.n < |net| && Excused(w, c, Ending(net[d.n].msg.corr, d.reason))
    ensures AllExcused(w, c', EndingsAfter(net, endings, d))
  {
    var endings' := EndingsAfter(net, endings, d);
    forall k | 0 <= k < |endings'|
      ensures Excused(w, c', endings'[k])
    {
      if k < |endings| { assert endings'[k] == endings[k] && Excused(w, c, endings[k]); }
    }
  }

  lemma NobodyLostStep(w: World, s: State, step: Step)
    requires Enabled(w, s, step) && !Faulty(step) && NobodyLost(s.clients)
    ensures NobodyLost(Apply(w, s, step).clients)
  {
    var d := ClientStep(w, s, step);
    if d.Becomes? && !step.Subscribe? {
      OnlyKnownClients(w, s, step);
      assert !d.client.lost;
    }
  }

  lemma {:induction false} ExcusedRun(w: World, s: State, steps: seq<Step>)
    requires WellConfigured(w) && Inv(w, s) && Valid(w, s, steps) && FaultFree(steps)
    requires AllExcused(w, s.clients, s.endings) && NobodyLost(s.clients)
    ensures AllExcused(w, Run(w, s, steps).clients, Run(w, s, steps).endings)
    ensures NobodyLost(Run(w, s, steps).clients)
    decreases |steps|
  {
    if steps != [] {
      assert !Faulty(steps[0]);
      InvStep(w, s, steps[0]);
      ExcusedStep(w, s, steps[0]);
      NobodyLostStep(w, s, steps[0]);
      assert FaultFree(steps[1..]) by {
        assert forall k :: 0 <= k < |steps[1..]| ==> steps[1..][k] == steps[k + 1];
      }
      ExcusedRun(w, Apply(w, s, steps[0]), steps[1..]);
    }
  }

  lemma WorkRunsDown(w: World, s: State, step: Step)
    requires WellConfigured(w) && Inv(w, s) && Ordered(s) && Enabled(w, s, step) && Work(w, s, step)
    ensures Inv(w, Apply(w, s, step)) && Ordered(Apply(w, s, step)) && !Faulty(step)
    ensures Measure(w, Apply(w, s, step)) < Measure(w, s)
  {
    StepDecreases(w, s, step);
    InvStep(w, s, step);
  }

  /** Every reachable state can come to rest without a fault. */
  lemma {:induction false} ComesToRest(w: World, s: State) returns (steps: seq<Step>, t: State)
    requires WellConfigured(w) && Inv(w, s) && Ordered(s)
    ensures Valid(w, s, steps) && Run(w, s, steps) == t && FaultFree(steps) && AtRest(w, t)
    decreases Measure(w, s)
  {
    if AtRest(w, s) {
      steps, t := [], s;
    } else {
      var step := SomeWork(w, s);
      WorkRunsDown(w, s, step);
      steps, t := ComesToRest(w, Apply(w, s, step));
      RunCons(w, s, step, steps);
      FaultFreeCons(step, steps);
      steps := [step] + steps;
    }
  }

  lemma SomeWork(w: World, s: State) returns (step: Step)
    requires !AtRest(w, s)
    ensures Enabled(w, s, step) && Work(w, s, step)
  {
    step :| Enabled(w, s, step) && Work(w, s, step);
  }

  lemma FaultFreeCons(step: Step, steps: seq<Step>)
    requires !Faulty(step) && FaultFree(steps)
    ensures FaultFree([step] + steps)
  {
  }

  lemma {:induction false} SomeEnding(es: seq<Ending>, id: string) returns (k: nat)
    requires Endings(es, id) > 0
    ensures k < |es| && es[k].corr == id
  {
    k := |es| - 1;
    if es[k].corr != id {
      k := SomeEnding(es[..k], id);
    }
  }

  /** Delivery guarantee: in a run without crashed or failed preprocessors, broker losses and broken
      connections, in any interleaving and with any redeliveries and foreign deliveries, every
      published request with a bound chain has exactly one result once the system is at rest; with
      one image source it is the engine's on p1(p2(...pn(image))), or the report of a failed engine
      run if there was one. */
  lemma EveryRequestIsAnswered(w: World, steps: seq<Step>, id: string) returns (res: OcrResult)
    requires WellConfigured(w) && Valid(w, INIT, steps) && FaultFree(steps) && AtRest(w, Run(w, INIT, steps))
    requires id in Run(w, INIT, steps).clients && HasLeft(Run(w, INIT, steps).clients[id])
    requires AllBound(w, Run(w, INIT, steps).clients[id].submitted.chain)
    ensures var c := Run(w, INIT, steps).clients[id];
            && c.chan + c.receipts == [res] && res.id == id
            && (OneSource(c.submitted) ==>
                  || EngineOnFold(w, c.submitted, res)
                  || (!EngineNeverFails(steps) && IsErrorReport(c.submitted, res)))
  {
    res := OneResult(w, steps, id);
    var c := Run(w, INIT, steps).clients[id];
    assert res in c.chan + c.receipts;
    ReceivedIsOwn(w, steps, id, res);
    if OneSource(c.submitted) {
      ResultIsFold(w, steps, id, res);
      if EngineNeverFails(steps) { NeverErred(w, INIT, steps); }
    }
  }

  lemma OneResult(w: World, steps: seq<Step>, id: string) returns (res: OcrResult)
    requires WellConfigured(w) && Valid(w, INIT, steps) && FaultFree(steps) && AtRest(w, Run(w, INIT, steps))
    requires id in Run(w, INIT, steps).clients && HasLeft(Run(w, INIT, steps).clients[id])
    requires AllBound(w, Run(w, INIT, steps).clients[id].submitted.chain)
    ensures var c := Run(w, INIT, steps).clients[id]; c.chan + c.receipts == [res]
  {
    AccountedAtRest(w, steps, id);
    ExcusedRun(w, INIT, steps);
    var s := Run(w, INIT, steps);
    var k := SomeEnding(s.endings, id);
    assert Excused(w, s.clients, s.endings[k]);
    assert s.endings[k] == Ending(id, Acknowledged);
    res := (s.clients[id].chan + s.clients[id].receipts)[0];
  }

  lemma ReceivedIsOwn(w: World, steps: seq<Step>, id: string, res: OcrResult)
    requires WellConfigured(w) && Valid(w, INIT, steps) && id in Run(w, INIT, steps).clients
    requires res in Run(w, INIT, steps).clients[id].chan + Run(w, INIT, steps).clients[id].receipts
    ensures res.id == id
  {
    NoCrosstalk(w, steps, id);
    var c := Run(w, INIT, steps).clients[id];
    assert res in c.chan || res in c.receipts;
    assert Mine(w, id, c, res);
  }
}
