/** Every run of the protocol runs down: a measure, and what is left when nothing can happen. */
module LifecycleProgress {
  import opened OcrTypes
  import opened OcrRequests
  import opened Pipeline
  import opened Lifecycle
  import opened LifecycleInv
  import opened LifecycleTheorems

  // ----- the measure -----

  function ItemWeight(w: World, x: Item): nat {
    match x.place
    case Queued(key) => if key == w.ocrKey then 5 else 2 * |x.msg.body.chain| + 7
    case PreHand(_) => 2 * |x.msg.body.chain| + 6
    case OcrHand(_, answered) => if answered then 1 else 4
  }

  function StageWeight(w: World, c: Client): nat {
    match c.stage
    case Subscribed => Attempts(w) + 2 * |c.submitted.chain| + 9
    case Sent => Attempts(w) + 3
    case Awaiting => Attempts(w) + 2
    case Posting(_, n) => if n <= Attempts(w) then Attempts(w) + 2 - n else 2
    case Deleting => 1
    case Decaying => 1
    case Aborted => 0
    case Finished => 0
  }

  function ClientWeight(w: World, c: Client): nat {
    2 * |c.callback| + (if c.listening then 1 else 0) + |c.chan| + StageWeight(w, c)
  }

  function NetWeight(w: World, net: seq<Item>): nat {
    if net == [] then 0 else NetWeight(w, net[..|net| - 1]) + ItemWeight(w, net[|net| - 1])
  }

  function ClientsWeight(w: World, order: seq<string>, clients: map<string, Client>): nat
    requires forall k :: 0 <= k < |order| ==> order[k] in clients
  {
    if order == [] then 0
    else ClientsWeight(w, order[..|order| - 1], clients) + ClientWeight(w, clients[order[|order| - 1]])
  }

  /** The list of clients in order of arrival. */
  ghost predicate Ordered(s: State) { Lists(s.order, s.clients) }

  ghost predicate Lists(order: seq<string>, clients: map<string, Client>) {
    && (forall k :: 0 <= k < |order| ==> order[k] in clients)
    && (forall j, k :: 0 <= j < k < |order| ==> order[j] != order[k])
    && (forall id :: id in clients ==> id in order)
  }

  /** Chain lengths, stages, undelivered responses and remaining attempts. */
  ghost function Measure(w: World, s: State): nat
    requires Ordered(s)
  {
    NetWeight(w, s.net) + ClientsWeight(w, s.order, s.clients)
  }

  // ----- sums -----

  lemma {:induction false} NetWeightUpdate(w: World, net: seq<Item>, n: nat, x: Item)
    requires n < |net|
    ensures NetWeight(w, net[n := x]) == NetWeight(w, net) - ItemWeight(w, net[n]) + ItemWeight(w, x)
  {
    var last := |net| - 1;
    if n < last {
      assert net[n := x][..last] == net[..last][n := x];
      NetWeightUpdate(w, net[..last], n, x);
    } else {
      assert net[n := x][..last] == net[..last];
    }
  }

  lemma {:induction false} NetWeightRemove(w: World, net: seq<Item>, n: nat)
    requires n < |net|
    ensures NetWeight(w, net[..n] + net[n + 1..]) == NetWeight(w, net) - ItemWeight(w, net[n])
  {
    var last := |net| - 1;
    if n < last {
      assert (net[..n] + net[n + 1..])[..last - 1] == net[..last][..n] + net[..last][n + 1..];
      NetWeightRemove(w, net[..last], n);
    } else {
      assert net[..n] + net[n + 1..] == net[..last];
    }
  }

  lemma {:induction false} ClientsWeightUnchanged(
      w: World, order: seq<string>, clients: map<string, Client>, id: string, c: Client)
    requires forall k :: 0 <= k < |order| ==> order[k] in clients
    requires id !in order
    ensures ClientsWeight(w, order, clients[id := c]) == ClientsWeight(w, order, clients)
  {
    if order != [] {
      assert order[|order| - 1] in order;
      ClientsWeightUnchanged(w, order[..|order| - 1], clients, id, c);
    }
  }

  lemma {:induction false} ClientsWeightUpdate(
      w: World, order: seq<string>, clients: map<string, Client>, id: string, c: Client)
    requires forall k :: 0 <= k < |order| ==> order[k] in clients
    requires forall j, k :: 0 <= j < k < |order| ==> order[j] != order[k]
    requires id in order
    ensures ClientsWeight(w, order, clients[id := c])
            == ClientsWeight(w, order, clients) - ClientWeight(w, clients[id]) + ClientWeight(w, c)
  {
    var last := |order| - 1;
    if order[last] == id {
      assert id !in order[..last];
      ClientsWeightUnchanged(w, order[..last], clients, id, c);
    } else {
      assert id in order[..last];
      ClientsWeightUpdate(w, order[..last], clients, id, c);
    }
  }

  // ----- every step of the machinery decreases it -----

  /** Everything except new requests, foreign deliveries, redeliveries and status queries. */
  predicate Internal(step: Step) {
    !step.Subscribe? && !step.ForeignDelivery? && !step.Redeliver? && !step.Poll?
  }

  lemma OrderedStep(w: World, s: State, step: Step)
    requires Ordered(s) && Enabled(w, s, step)
    ensures Ordered(Apply(w, s, step))
  {
    var d := ClientStep(w, s, step);
    if step.Subscribe? {
      ListsNew(s.order, s.clients, d.id, d.client);
    } else if d.Becomes? {
      OnlyKnownClients(w, s, step);
      assert ClientsAfter(s.clients, d).Keys == s.clients.Keys;
    }
  }

  lemma ListsNew(order: seq<string>, clients: map<string, Client>, id: string, c: Client)
    requires Lists(order, clients) && id !in clients
    ensures Lists(order + [id], clients[id := c])
  {
    assert id !in order;
  }

  /** What a change takes off the weight of the messages, and of the clients. */
  function ItemLoss(w: World, net: seq<Item>, d: NetChange): int
    requires d.Move? || d.End? ==> d.n < |net|
  {
    match d
    case Send(x) => 0 - ItemWeight(w, x)
    case Move(n, x) => ItemWeight(w, net[n]) - ItemWeight(w, x)
    case End(n, _) => ItemWeight(w, net[n])
    case _ => 0
  }

  function ClientLoss(w: World, clients: map<string, Client>, d: ClientChange): int
    requires d.Becomes? ==> d.id in clients
  {
    if d.Nobody? then 0 else ClientWeight(w, clients[d.id]) - ClientWeight(w, d.client)
  }

  lemma NetLoss(w: World, net: seq<Item>, d: NetChange)
    requires d.Move? || d.End? ==> d.n < |net|
    ensures NetWeight(w, NetAfter(net, d)) == NetWeight(w, net) - ItemLoss(w, net, d)
  {
    match d
    case Send(x) => assert (net + [x])[..|net|] == net;
    case Move(n, x) => NetWeightUpdate(w, net, n, x);
    case End(n, _) => NetWeightRemove(w, net, n);
    case _ =>
  }

  predicate WellDefined(w: World, s: State, step: Step)
    requires Enabled(w, s, step)
  {
    && (NetStep(w, s, step).Move? || NetStep(w, s, step).End? ==> NetStep(w, s, step).n < |s.net|)
    && (ClientStep(w, s, step).Becomes? ==> ClientStep(w, s, step).id in s.clients)
  }

  lemma MeasureChange(w: World, s: State, step: Step)
    requires Enabled(w, s, step) && Ordered(s) && !step.Subscribe? && WellDefined(w, s, step)
    ensures Ordered(Apply(w, s, step))
    ensures Measure(w, Apply(w, s, step))
            == Measure(w, s) - ItemLoss(w, s.net, NetStep(w, s, step))
               - ClientLoss(w, s.clients, ClientStep(w, s, step))
  {
    OrderedStep(w, s, step);
    NetLoss(w, s.net, NetStep(w, s, step));
    var c := ClientStep(w, s, step);
    if c.Becomes? {
      ClientsWeightUpdate(w, s.order, s.clients, c.id, c.client);
    }
  }

  predicate WorkerStep(step: Step) {
    step.PreTake? || step.PreDone? || step.PreFail? || step.Lose? || step.OcrTake? || step.OcrAck?
  }

  function Loss(w: World, s: State, step: Step): int
    requires Enabled(w, s, step) && WellDefined(w, s, step)
  {
    ItemLoss(w, s.net, NetStep(w, s, step)) + ClientLoss(w, s.clients, ClientStep(w, s, step))
  }

  /** A worker's step lightens its message, by more than the delivery it may add. */
  lemma WorkerStepLoses(w: World, s: State, step: Step)
    requires WellConfigured(w) && Enabled(w, s, step) && WellDefined(w, s, step) && WorkerStep(step)
    ensures Loss(w, s, step) > 0
  {
  }

  lemma DeliveryLoses(w: World, s: State, step: Step)
    requires Enabled(w, s, step) && WellDefined(w, s, step) && (step.OcrAnswer? || step.Misdeliver?)
    ensures Loss(w, s, step) > 0
  {
  }

  lemma PublishLoses(w: World, s: State, id: string)
    requires Enabled(w, s, Publish(id)) && WellDefined(w, s, Publish(id))
    ensures Loss(w, s, Publish(id)) > 0
  {
  }

  predicate ClientOnly(step: Step) {
    Internal(step) && !WorkerStep(step) && !step.Publish? && !step.OcrAnswer? && !step.Misdeliver?
  }

  lemma ClientOnlyKeepsMessages(w: World, s: State, step: Step)
    requires Enabled(w, s, step) && ClientOnly(step)
    ensures NetStep(w, s, step).Keep? && step.id in s.clients
    ensures ClientStep(w, s, step).Becomes? && ClientStep(w, s, step).id == step.id
  {
  }

  lemma ClientStepLoses(w: World, s: State, step: Step)
    requires Enabled(w, s, step) && ClientOnly(step)
    requires ClientStep(w, s, step).Becomes? && ClientStep(w, s, step).id == step.id && step.id in s.clients
    requires step.PostAttempt? ==> s.clients[step.id].stage.attempt <= Attempts(w)
    ensures ClientLoss(w, s.clients, ClientStep(w, s, step)) > 0
  {
  }

  lemma InternalStepLoses(w: World, s: State, step: Step)
    requires WellConfigured(w) && ClientsInv(w, s) && Enabled(w, s, step) && Internal(step) && WellDefined(w, s, step)
    ensures Loss(w, s, step) > 0
  {
    if step.Publish? {
      PublishLoses(w, s, step.id);
    } else if step.OcrAnswer? || step.Misdeliver? {
      DeliveryLoses(w, s, step);
    } else if WorkerStep(step) {
      WorkerStepLoses(w, s, step);
    } else {
      ClientOnlyKeepsMessages(w, s, step);
      assert GoodClient(w, step.id, s.clients[step.id]);
      ClientStepLoses(w, s, step);
    }
  }

  lemma PollLoses(w: World, s: State, id: string)
    requires Enabled(w, s, Poll(id)) && WellDefined(w, s, Poll(id))
    ensures Loss(w, s, Poll(id)) == if PollAnswer(s, id).Claimed? then 1 else 0
  {
  }

  lemma StepWellDefined(w: World, s: State, step: Step)
    requires Enabled(w, s, step) && !step.Subscribe?
    ensures WellDefined(w, s, step)
  {
    MovesKeepCorrelation(w, s, step);
    if ClientStep(w, s, step).Becomes? { OnlyKnownClients(w, s, step); }
  }

  /** A step of the machinery, or a status query that takes the result. */
  predicate Progresses(s: State, step: Step) {
    Internal(step) || (step.Poll? && PollAnswer(s, step.id).Claimed?)
  }

  /** Every internal step and every claim decrease the measure, and other status queries leave it. */
  lemma StepDecreases(w: World, s: State, step: Step)
    requires WellConfigured(w) && ClientsInv(w, s) && Ordered(s) && Enabled(w, s, step)
    requires Internal(step) || step.Poll?
    ensures Ordered(Apply(w, s, step))
    ensures Progresses(s, step) ==> Measure(w, Apply(w, s, step)) < Measure(w, s)
    ensures !Progresses(s, step) ==> Measure(w, Apply(w, s, step)) == Measure(w, s)
  {
    StepWellDefined(w, s, step);
    MeasureChange(w, s, step);
    if Internal(step) { InternalStepLoses(w, s, step); } else { PollLoses(w, s, step.id); }
  }

  // ----- runs -----

  predicate NoNewWork(steps: seq<Step>) {
    forall k :: 0 <= k < |steps| ==> Internal(steps[k]) || steps[k].Poll?
  }

  /** How many steps of a run make progress: internal ones and claims. */
  function ProgressSteps(w: World, s: State, steps: seq<Step>): nat
    requires Valid(w, s, steps)
    decreases |steps|
  {
    if steps == [] then 0
    else (if Progresses(s, steps[0]) then 1 else 0) + ProgressSteps(w, Apply(w, s, steps[0]), steps[1..])
  }

  lemma {:induction false} RunsDown(w: World, s: State, steps: seq<Step>)
    requires WellConfigured(w) && Inv(w, s) && Ordered(s) && Valid(w, s, steps) && NoNewWork(steps)
    ensures Ordered(Run(w, s, steps))
    ensures ProgressSteps(w, s, steps) + Measure(w, Run(w, s, steps)) <= Measure(w, s)
    decreases |steps|
  {
    if steps != [] {
      assert Internal(steps[0]) || steps[0].Poll?;
      StepDecreases(w, s, steps[0]);
      InvStep(w, s, steps[0]);
      assert NoNewWork(steps[1..]) by {
        forall k | 0 <= k < |steps[1..]| ensures Internal(steps[1..][k]) || steps[1..][k].Poll? {
          assert steps[1..][k] == steps[k + 1];
        }
      }
      RunsDown(w, Apply(w, s, steps[0]), steps[1..]);
    }
  }

  lemma {:induction false} OrderedRun(w: World, s: State, steps: seq<Step>)
    requires Ordered(s) && Valid(w, s, steps)
    ensures Ordered(Run(w, s, steps))
    decreases |steps|
  {
    if steps != [] {
      OrderedStep(w, s, steps[0]);
      OrderedRun(w, Apply(w, s, steps[0]), steps[1..]);
    }
  }

  /** Without new requests and redeliveries the system comes to rest: after any history, the
      number of further internal steps and claims is bounded by the measure reached. */
  lemma Terminates(w: World, past: seq<Step>, future: seq<Step>)
    requires WellConfigured(w) && Valid(w, INIT, past) && Valid(w, Run(w, INIT, past), future) && NoNewWork(future)
    ensures Ordered(Run(w, INIT, past))
    ensures ProgressSteps(w, Run(w, INIT, past), future) <= Measure(w, Run(w, INIT, past))
  {
    InvReachable(w, past);
    OrderedRun(w, INIT, past);
    RunsDown(w, Run(w, INIT, past), future);
  }

  // ----- rest -----

  /** Internal steps other than faults: nobody has to crash, fail or lose anything to get ahead. An
      engine run fails without a fault only for text that is not base64. */
  predicate Work(w: World, s: State, step: Step)
    requires Enabled(w, s, step)
  {
    && Internal(step) && !step.PreFail? && !step.Lose? && !step.Disconnect?
    && (step.OcrAnswer? && !step.run.Ran? ==> EngineImage(w, s.net[step.n].msg.body).None?)
  }

  /** Some work step for a message, or for a client that is not done. */
  function WorkOnItem(w: World, n: nat, x: Item): Step {
    match x.place
    case Queued(key) =>
      if key == w.ocrKey then OcrTake(n, 0) else if key in w.preKeys then PreTake(n) else Misdeliver(n)
    case PreHand(_) => PreDone(n)
    case OcrHand(_, answered) =>
      if answered then OcrAck(n)
      else OcrAnswer(n, if EngineImage(w, x.msg.body).Some? then Ran else Failed(""))
  }

  function WorkOnClient(w: World, id: string, c: Client): Step {
    match c.stage
    case Subscribed => if Normalised(w, c.submitted).Some? then Publish(id) else Abort(id)
    case Sent => if c.submitted.deferred then Track(id) else SyncTimeout(id)
    case Decaying => Decay(id)
    case Awaiting => PostTimeout(id)
    case Posting(_, _) => PostAttempt(id, true)
    case _ => PostDelete(id)
  }

  predicate Done(c: Client) { c.stage.Finished? || c.stage.Aborted? }

  lemma ItemHasWork(w: World, s: State, n: nat)
    requires NetInv(w, s) && n < |s.net|
    ensures Enabled(w, s, WorkOnItem(w, n, s.net[n])) && Work(w, s, WorkOnItem(w, n, s.net[n]))
  {
    assert GoodItem(w, s.clients, s.net[n]);
  }

  lemma ClientHasWork(w: World, s: State, id: string)
    requires id in s.clients && !Done(s.clients[id])
    ensures var step := WorkOnClient(w, id, s.clients[id]); Enabled(w, s, step) && Work(w, s, step)
  {
  }

  ghost predicate Busy(s: State) {
    s.net != [] || s.table.track != {} || exists id :: id in s.clients && !Done(s.clients[id])
  }

  /** The system never gets stuck: as long as a message is in flight, a request is tracked or
      a client is not done, some work step is enabled. */
  lemma NeverStuck(w: World, steps: seq<Step>) returns (step: Step)
    requires WellConfigured(w) && Valid(w, INIT, steps) && Busy(Run(w, INIT, steps))
    ensures Enabled(w, Run(w, INIT, steps), step) && Work(w, Run(w, INIT, steps), step)
  {
    InvReachable(w, steps);
    var s := Run(w, INIT, steps);
    if s.net != [] {
      ItemHasWork(w, s, 0);
      step := WorkOnItem(w, 0, s.net[0]);
    } else {
      var id;
      if s.table.track != {} {
        id :| id in s.table.track;
      } else {
        id :| id in s.clients && !Done(s.clients[id]);
      }
      ClientHasWork(w, s, id);
      step := WorkOnClient(w, id, s.clients[id]);
    }
  }

  ghost predicate AtRest(w: World, s: State) {
    forall step :: Enabled(w, s, step) ==> !Work(w, s, step)
  }

  /** So a state in which no work step is enabled has an empty tracking table, no message in
      flight and no client waiting. */
  lemma RestIsEmpty(w: World, steps: seq<Step>)
    requires WellConfigured(w) && Valid(w, INIT, steps)
    requires AtRest(w, Run(w, INIT, steps))
    ensures !Busy(Run(w, INIT, steps))
  {
    if Busy(Run(w, INIT, steps)) {
      var step := NeverStuck(w, steps);
    }
  }

  /** At rest every published request has ended for exactly one recorded reason; and if that was
      an acknowledgement, its answer reached the response channel, unless the client's
      connection broke. */
  lemma AccountedAtRest(w: World, steps: seq<Step>, id: string)
    requires WellConfigured(w) && Valid(w, INIT, steps)
    requires AtRest(w, Run(w, INIT, steps))
    requires id in Run(w, INIT, steps).clients
    ensures var s := Run(w, INIT, steps);
            var c := s.clients[id];
            && Done(c)
            && (HasLeft(c) ==> Endings(s.endings, id) == 1)
            && (Ending(id, Acknowledged) in s.endings && !c.lost ==> |c.chan| + |c.receipts| == 1)
  {
    RestIsEmpty(w, steps);
    Conservation(w, steps, id);
    InvReachable(w, steps);
    var s := Run(w, INIT, steps);
    assert GoodClient(w, id, s.clients[id]);
    if s.clients[id].listening && s.clients[id].callback != [] {
      assert Enabled(w, s, Consume(id)) && Work(w, s, Consume(id));
    }
  }
}
