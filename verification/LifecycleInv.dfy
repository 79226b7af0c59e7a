/** What every step of the protocol keeps. */
module LifecycleInv {
  import opened OcrTypes
  import opened OcrRequests
  import opened Pipeline
  import opened ResultsStorage
  import opened Lifecycle

  // ----- results belong to their request -----

  /** Text and status of `res` were computed by the engine from this very request, that is, from
      the message the pipeline makes of it; or, if the worker failed to decode it, they are the
      worker's error report about it. */
  predicate Derived(w: World, r: Request, erred: bool, res: OcrResult) {
    && Normalised(w, r).Some?
    && var o := Published(w, Normalised(w, r).value);
    && o.Decoded?
    && (FromEngine(w, o.input, res) || (erred && IsErrorReport(r, res)))
  }

  predicate IsErrorReport(r: Request, res: OcrResult) {
    && res.status == "error"
    && ("Error processing image url: " + r.settings.requestID + ".  Error: " <= res.text
        || "Error unmarshalling json: " + r.settings.requestID + ".  Error: " <= res.text)
  }

  predicate FromEngine(w: World, input: Request, res: OcrResult) {
    && EngineImage(w, input).Some?
    && var e := w.engine(input.settings, input.timeOut, EngineImage(w, input).value);
    && res.text == e.text && res.status == e.status
  }

  /** The chain leads the message back into the request's own callback queue. */
  predicate SelfAddressed(w: World, r: Request) {
    Normalised(w, r).Some? && Published(w, Normalised(w, r).value) == Unroutable(r.settings.requestID)
  }

  /** What a client may take for the result of `r`: its own message if that comes back to it,
      and a result computed from it otherwise. */
  predicate Own(w: World, r: Request, erred: bool, res: OcrResult) {
    if SelfAddressed(w, r) then res.text == "" && res.status == "" else Derived(w, r, erred, res)
  }

  predicate Mine(w: World, id: string, c: Client, res: OcrResult) {
    res.id == id && Own(w, c.submitted, c.erred, res)
  }

  // ----- messages -----

  predicate HasLeft(c: Client) {
    !c.stage.Subscribed? && !c.stage.Aborted?
  }

  /** The key under which a message was published last. */
  function KeyOf(w: World, p: Place): string {
    match p
    case Queued(key) => key
    case PreHand(key) => key
    case OcrHand(_, _) => w.ocrKey
  }

  /** Wherever a message is, it is some publication of the request submitted under its
      correlation ID: that request's image folded over the names consumed so far. */
  ghost predicate GoodItem(w: World, clients: map<string, Client>, x: Item) {
    var m := x.msg;
    && m.corr in clients && m.replyTo == m.corr && HasLeft(clients[m.corr])
    && Normalised(w, clients[m.corr].submitted).Some?
    && (x.place.Queued? ==> Bound(w, x.place.key) || x.place.key in clients)
    && (x.place.PreHand? ==> x.place.key in w.preKeys)
    && SomePublication(w, Normalised(w, clients[m.corr].submitted).value, KeyOf(w, x.place), m.body)
  }

  /** So its remaining fate is that of the request. */
  lemma GoodItemFate(w: World, clients: map<string, Client>, x: Item)
    requires WellConfigured(w) && GoodItem(w, clients, x)
    ensures Fate(w, KeyOf(w, x.place), x.msg.body) == Published(w, Normalised(w, clients[x.msg.corr].submitted).value)
    ensures x.msg.body.settings == clients[x.msg.corr].submitted.settings
    ensures x.msg.body.timeOut == clients[x.msg.corr].submitted.timeOut
  {
    var r := Normalised(w, clients[x.msg.corr].submitted).value;
    var k :| OnWire(w, r, KeyOf(w, x.place), x.msg.body, k);
    WireFate(w, r, k);
  }

  ghost predicate AllGood(w: World, clients: map<string, Client>, net: seq<Item>) {
    forall n :: 0 <= n < |net| ==> GoodItem(w, clients, net[n])
  }

  ghost predicate NetInv(w: World, s: State) {
    AllGood(w, s.clients, s.net)
  }

  // ----- clients -----

  ghost predicate Repeats(posts: seq<OcrResult>, res: OcrResult) {
    forall k :: 0 <= k < |posts| ==> posts[k] == res
  }

  ghost predicate StageInv(w: World, id: string, c: Client) {
    match c.stage
    case Subscribed => c.posts == [] && c.chan + c.receipts == []
    case Aborted => c.posts == [] && c.chan + c.receipts == []
    case Sent => c.posts == [] && c.receipts == []
    case Decaying => c.posts == [] && c.submitted.deferred && c.submitted.replyTo == ""
    case Awaiting => c.posts == [] && c.submitted.deferred && c.submitted.replyTo != ""
    case Posting(res, n) =>
      && c.receipts == [res] && 1 <= n <= Attempts(w) && |c.posts| == n - 1 && Repeats(c.posts, res)
      && c.submitted.deferred && c.submitted.replyTo != ""
    case Deleting => PostedWell(w, id, c) && c.submitted.deferred && c.submitted.replyTo != ""
    case Finished => if c.submitted.deferred && c.submitted.replyTo != "" then PostedWell(w, id, c) else c.posts == []
  }

  /** The postback made between one and max(1, numRetries) posts of the received result, or
      gave up waiting and posted one error report. */
  ghost predicate PostedWell(w: World, id: string, c: Client) {
    || (1 <= |c.posts| <= Attempts(w) && |c.receipts| == 1 && Repeats(c.posts, c.receipts[0]))
    || c.posts == [TimeoutResult(id)]
  }

  ghost predicate GoodClient(w: World, id: string, c: Client) {
    && c.submitted.settings.requestID == id && !Bound(w, id)
    && (c.listening ==> !c.lost && c.chan == [] && c.receipts == [])
    && (!c.listening ==> c.callback == [])
    && |c.chan| + |c.receipts| <= 1
    && (!c.listening && !c.lost ==> |c.chan| + |c.receipts| == 1)
    && (forall k :: 0 <= k < |c.chan| ==> Mine(w, id, c, c.chan[k]))
    && (forall k :: 0 <= k < |c.receipts| ==> Mine(w, id, c, c.receipts[k]))
    && (forall k :: 0 <= k < |c.callback| && c.callback[k].corr == id ==>
          Own(w, c.submitted, c.erred, c.callback[k].result))
    && (!HasLeft(c) ==> forall k :: 0 <= k < |c.callback| ==> c.callback[k].corr != id)
    && StageInv(w, id, c)
  }

  ghost predicate ClientsInv(w: World, s: State) {
    forall id :: id in s.clients ==> GoodClient(w, id, s.clients[id])
  }

  // ----- table and status answers -----

  predicate Served(c: Client) {
    c.stage.Decaying? || c.stage.Awaiting? || c.stage.Posting? || c.stage.Deleting?
  }

  ghost predicate TableInv(s: State) {
    && Agrees(s.table)
    && s.table.gauge == |s.table.track|
    && forall id :: id in s.table.track ==> id in s.clients && Served(s.clients[id])
  }

  predicate WasClaimed(h: seq<Answer>) {
    exists k :: 0 <= k < |h| && h[k].Claimed?
  }

  /** As long as a request is served it stays in the table, unless a status query claimed it. */
  ghost predicate ServedInv(s: State) {
    forall id :: id in s.clients && Served(s.clients[id]) ==> id in s.table.track || WasClaimed(History(s, id))
  }

  /** Position of a history in not-found* processing* result? not-found*; 3 is off the track. */
  function Phase(h: seq<Answer>): nat {
    if h == [] then 0 else PhaseAfter(Phase(h[..|h| - 1]), h[|h| - 1])
  }

  function PhaseAfter(p: nat, a: Answer): nat {
    match a
    case NotFound => if p == 0 then 0 else if p <= 2 then 2 else 3
    case Processing => if p <= 1 then 1 else 3
    case Claimed(_) => if p <= 1 then 2 else 3
  }

  predicate Tracked(s: State, id: string) {
    id in s.clients && (Served(s.clients[id]) || s.clients[id].stage.Finished?)
  }

  ghost predicate HistoryInv(s: State, id: string) {
    && Phase(History(s, id)) <= 2
    && (!Tracked(s, id) ==> Phase(History(s, id)) == 0)
    && (id in s.table.track ==> Phase(History(s, id)) <= 1)
    && forall k :: 0 <= k < |History(s, id)| && History(s, id)[k].Claimed? ==>
         id in s.clients && s.clients[id].receipts == [History(s, id)[k].result]
  }

  ghost predicate AnswersInv(s: State) {
    forall id :: HistoryInv(s, id)
  }

  // ----- nothing is lost on the way -----

  ghost predicate HasAnswer(id: string, c: Client) {
    c.lost || !c.listening || exists k :: 0 <= k < |c.callback| && c.callback[k].corr == id
  }

  predicate HasAnswered(x: Item) { x.place.OcrHand? && x.place.answered }

  ghost predicate AnsweredInv(s: State) {
    AnswersReach(s.answered, s.clients) && HandsAnswered(s.answered, s.net) && AcksAnswered(s.answered, s.endings)
  }

  ghost predicate AnswersReach(answered: set<string>, clients: map<string, Client>) {
    forall id :: id in answered ==> id in clients && HasLeft(clients[id]) && HasAnswer(id, clients[id])
  }

  ghost predicate HandsAnswered(answered: set<string>, net: seq<Item>) {
    forall n :: 0 <= n < |net| && HasAnswered(net[n]) ==> net[n].msg.corr in answered
  }

  ghost predicate AcksAnswered(answered: set<string>, endings: seq<Ending>) {
    forall n :: 0 <= n < |endings| && endings[n].reason == Acknowledged ==> endings[n].corr in answered
  }

  function InFlight(net: seq<Item>, id: string): nat {
    if net == [] then 0 else InFlight(net[..|net| - 1], id) + if net[|net| - 1].msg.corr == id then 1 else 0
  }

  function Endings(es: seq<Ending>, id: string): nat {
    if es == [] then 0 else Endings(es[..|es| - 1], id) + if es[|es| - 1].corr == id then 1 else 0
  }

  predicate Conserved(s: State, id: string) {
    InFlight(s.net, id) + Endings(s.endings, id) == if id in s.clients && HasLeft(s.clients[id]) then 1 else 0
  }

  ghost predicate ConservationInv(s: State) {
    forall id :: Conserved(s, id)
  }

  ghost predicate Inv(w: World, s: State) {
    && NetInv(w, s) && ClientsInv(w, s) && TableInv(s) && ServedInv(s) && AnswersInv(s)
    && AnsweredInv(s) && ConservationInv(s)
  }

  // ----- messages: preservation -----

  /** Clients are never forgotten, never change their request and never go back. */
  ghost predicate Extends(c: map<string, Client>, c': map<string, Client>) {
    forall id :: id in c ==> id in c' && c'[id].submitted == c[id].submitted && (HasLeft(c[id]) ==> HasLeft(c'[id]))
  }

  /** A step keeps the request of the client it touches, and never takes it back before publishing. */
  lemma ChangedClient(w: World, s: State, step: Step)
    requires Enabled(w, s, step) && ClientStep(w, s, step).Becomes? && ClientStep(w, s, step).id in s.clients
    ensures var d := ClientStep(w, s, step);
            d.client.submitted == s.clients[d.id].submitted && (HasLeft(s.clients[d.id]) ==> HasLeft(d.client))
  {
    KeepsRequest(w, s, step);
    LeavesByPublishing(w, s, step);
  }

  lemma KeepsRequest(w: World, s: State, step: Step)
    requires Enabled(w, s, step) && ClientStep(w, s, step).Becomes? && ClientStep(w, s, step).id in s.clients
    ensures ClientStep(w, s, step).client.submitted == s.clients[ClientStep(w, s, step).id].submitted
  {
  }

  /** The one step by which a client leaves is publishing. */
  lemma LeavesByPublishing(w: World, s: State, step: Step)
    requires Enabled(w, s, step) && ClientStep(w, s, step).Becomes? && ClientStep(w, s, step).id in s.clients
    ensures var d := ClientStep(w, s, step);
            HasLeft(d.client) <==> HasLeft(s.clients[d.id]) || step.Publish?
  {
  }

  lemma StepExtends(w: World, s: State, step: Step)
    requires Enabled(w, s, step)
    ensures Extends(s.clients, ClientsAfter(s.clients, ClientStep(w, s, step)))
  {
    var d := ClientStep(w, s, step);
    if d.Becomes? && d.id in s.clients { ChangedClient(w, s, step); }
    ChangeExtends(s.clients, d);
  }

  lemma ChangeExtends(clients: map<string, Client>, d: ClientChange)
    requires d.Becomes? && d.id in clients ==>
               d.client.submitted == clients[d.id].submitted && (HasLeft(clients[d.id]) ==> HasLeft(d.client))
    ensures Extends(clients, ClientsAfter(clients, d))
  {
  }

  ghost predicate GoodNetChange(w: World, clients: map<string, Client>, d: NetChange) {
    (d.Send? || d.Move?) ==> GoodItem(w, clients, d.item)
  }

  lemma HopIsGood(w: World, s: State, n: nat)
    requires WellConfigured(w) && NetInv(w, s) && Enabled(w, s, PreDone(n))
    ensures GoodNetChange(w, s.clients, NetStep(w, s, PreDone(n)))
  {
    var x := s.net[n];
    assert GoodItem(w, s.clients, x);
    var r := Normalised(w, s.clients[x.msg.corr].submitted).value;
    var k :| OnWire(w, r, x.place.key, x.msg.body, k);
    HopOnWire(w, r, x.place.key, x.msg.body, k);
  }

  lemma MoveIsGood(w: World, s: State, step: Step, n: nat)
    requires NetInv(w, s) && Enabled(w, s, step) && n < |s.net|
    requires step == PreTake(n) || step == Redeliver(n) || ((step.OcrTake? || step.OcrAnswer?) && step.n == n)
    ensures GoodNetChange(w, s.clients, NetStep(w, s, step))
  {
    assert GoodItem(w, s.clients, s.net[n]);
  }

  /** A message sent or moved is the next or the same publication of its own request. */
  lemma NetStepIsGood(w: World, s: State, step: Step)
    requires WellConfigured(w) && NetInv(w, s) && Enabled(w, s, step) && !step.Publish?
    ensures GoodNetChange(w, s.clients, NetStep(w, s, step))
  {
    match step
    case PreDone(n) => HopIsGood(w, s, n);
    case PreTake(n) => MoveIsGood(w, s, step, n);
    case OcrTake(n, _) => MoveIsGood(w, s, step, n);
    case OcrAnswer(n, _) => MoveIsGood(w, s, step, n);
    case Redeliver(n) => MoveIsGood(w, s, step, n);
    case _ =>
  }

  lemma PublishIsGood(w: World, s: State, id: string)
    requires WellConfigured(w) && ClientsInv(w, s) && Enabled(w, s, Publish(id))
    ensures GoodNetChange(w, s.clients[id := s.clients[id].(stage := Sent)], NetStep(w, s, Publish(id)))
  {
    assert GoodClient(w, id, s.clients[id]);
    FirstOnWire(w, Normalised(w, s.clients[id].submitted).value);
  }

  lemma NetChangeKeepsGood(w: World, c: map<string, Client>, c': map<string, Client>, net: seq<Item>, d: NetChange)
    requires AllGood(w, c, net) && Extends(c, c') && GoodNetChange(w, c', d)
    requires d.Move? || d.End? ==> d.n < |net|
    ensures AllGood(w, c', NetAfter(net, d))
  {
    var net' := NetAfter(net, d);
    forall n | 0 <= n < |net'|
      ensures GoodItem(w, c', net'[n])
    {
      if !((d.Move? && n == d.n) || (d.Send? && n == |net|)) {
        var k := if d.End? && n >= d.n then n + 1 else n;
        assert net'[n] == net[k] && GoodItem(w, c, net[k]);
      }
    }
  }

  lemma GoodItemExtends(w: World, c: map<string, Client>, c': map<string, Client>, d: NetChange)
    requires GoodNetChange(w, c, d) && Extends(c, c')
    ensures GoodNetChange(w, c', d)
  {
  }

  lemma NetInvStep(w: World, s: State, step: Step)
    requires WellConfigured(w) && NetInv(w, s) && ClientsInv(w, s) && Enabled(w, s, step)
    ensures NetInv(w, Apply(w, s, step))
  {
    var clients := ClientsAfter(s.clients, ClientStep(w, s, step));
    StepExtends(w, s, step);
    if step.Publish? {
      PublishIsGood(w, s, step.id);
    } else {
      NetStepIsGood(w, s, step);
      GoodItemExtends(w, s.clients, clients, NetStep(w, s, step));
    }
    NetChangeKeepsGood(w, s.clients, clients, s.net, NetStep(w, s, step));
  }

  // ----- clients: preservation -----

  lemma AnswerIsGood(w: World, s: State, n: nat, run: EngineRun)
    requires WellConfigured(w) && NetInv(w, s) && ClientsInv(w, s) && Enabled(w, s, OcrAnswer(n, run))
    requires s.clients[s.net[n].msg.replyTo].listening
    ensures var d := ClientStep(w, s, OcrAnswer(n, run)); d.Becomes? && GoodClient(w, d.id, d.client)
  {
    var m := s.net[n].msg;
    assert GoodItem(w, s.clients, s.net[n]);
    var c := s.clients[m.replyTo];
    assert GoodClient(w, m.replyTo, c);
    AnswerIsDerived(w, s.clients, s.net[n], run);
    NewDeliveryIsGood(w, m.replyTo, c, Delivery(m.corr, WorkerResult(w, m, run)), !run.Ran?);
  }

  lemma AnswerIsDerived(w: World, clients: map<string, Client>, x: Item, run: EngineRun)
    requires WellConfigured(w) && GoodItem(w, clients, x) && x.place.OcrHand?
    requires clients[x.msg.corr].submitted.settings.requestID == x.msg.corr && !Bound(w, x.msg.corr)
    requires run.Ran? ==> EngineImage(w, x.msg.body).Some?
    ensures Own(w, clients[x.msg.corr].submitted, !run.Ran?, WorkerResult(w, x.msg, run))
  {
    GoodItemFate(w, clients, x);
  }

  /** A message that gets into a callback queue by its chain is ignored there as foreign, unless
      that is its own client's. */
  lemma MisdeliveryIsGood(w: World, s: State, n: nat)
    requires WellConfigured(w) && NetInv(w, s) && ClientsInv(w, s) && Enabled(w, s, Misdeliver(n))
    requires s.clients[s.net[n].place.key].listening
    ensures var d := ClientStep(w, s, Misdeliver(n)); d.Becomes? && GoodClient(w, d.id, d.client)
  {
    var x := s.net[n];
    var id := x.place.key;
    assert GoodItem(w, s.clients, x) && GoodClient(w, id, s.clients[id]);
    if id == x.msg.corr { MisdeliveryIsOwn(w, s.clients, x); }
    NewDeliveryIsGood(w, id, s.clients[id], Delivery(x.msg.corr, NO_RESULT), false);
  }

  lemma MisdeliveryIsOwn(w: World, clients: map<string, Client>, x: Item)
    requires WellConfigured(w) && GoodItem(w, clients, x) && x.place == Queued(x.msg.corr) && !Bound(w, x.msg.corr)
    requires clients[x.msg.corr].submitted.settings.requestID == x.msg.corr
    ensures Own(w, clients[x.msg.corr].submitted, false, NO_RESULT)
  {
    GoodItemFate(w, clients, x);
  }

  lemma NewDeliveryIsGood(w: World, id: string, c: Client, d: Delivery, erred: bool)
    requires GoodClient(w, id, c) && c.listening
    requires d.corr == id ==> HasLeft(c) && Own(w, c.submitted, erred, d.result)
    ensures GoodClient(w, id, WithDelivery(c, d, erred))
  {
  }

  lemma ConsumeIsGood(w: World, id: string, c: Client)
    requires GoodClient(w, id, c) && c.listening && c.callback != []
    ensures GoodClient(w, id, Consumed(id, c))
  {
    if c.callback[0].corr == id {
      assert Mine(w, id, c, c.callback[0].result.(id := id));
    }
  }

  /** Whoever serves a tracked request, a status query may take the result. */
  lemma ClaimIsGood(w: World, id: string, c: Client)
    requires GoodClient(w, id, c) && Served(c) && c.chan != []
    ensures GoodClient(w, id, Received(c)) && Received(c).receipts == [c.chan[0]]
  {
  }

  lemma ReceiveIsGood(w: World, id: string, c: Client, stage: Stage)
    requires GoodClient(w, id, c) && c.chan != []
    requires || (stage == Finished && c.stage == Sent && !c.submitted.deferred)
             || (stage == Posting(c.chan[0], 1) && c.stage == Awaiting)
    ensures GoodClient(w, id, Received(c).(stage := stage))
  {
  }

  lemma PostIsGood(w: World, id: string, c: Client, ok: bool)
    requires GoodClient(w, id, c) && c.stage.Posting?
    ensures GoodClient(w, id, PostTried(w, c, ok))
  {
  }

  lemma OnlyKnownClients(w: World, s: State, step: Step)
    requires Enabled(w, s, step) && ClientStep(w, s, step).Becomes? && !step.Subscribe?
    ensures ClientStep(w, s, step).id in s.clients
  {
  }

  lemma ClientStepIsGood(w: World, s: State, step: Step)
    requires WellConfigured(w) && NetInv(w, s) && ClientsInv(w, s) && TableInv(s) && Enabled(w, s, step)
    ensures var d := ClientStep(w, s, step); d.Becomes? ==> GoodClient(w, d.id, d.client)
  {
    if ClientStep(w, s, step).Becomes? && !step.Subscribe? {
      if step.OcrAnswer? {
        AnswerIsGood(w, s, step.n, step.run);
      } else if step.Misdeliver? {
        MisdeliveryIsGood(w, s, step.n);
      } else {
        OwnStepIsGood(w, s, step);
      }
    }
  }

  /** The steps of a client's own goroutines and of those who ask about it. */
  lemma OwnStepIsGood(w: World, s: State, step: Step)
    requires ClientsInv(w, s) && TableInv(s) && Enabled(w, s, step) && ClientStep(w, s, step).Becomes?
    requires !step.Subscribe? && !step.OcrAnswer? && !step.Misdeliver?
    ensures GoodClient(w, ClientStep(w, s, step).id, ClientStep(w, s, step).client)
  {
    OnlyKnownClients(w, s, step);
    var id := ClientStep(w, s, step).id;
    assert GoodClient(w, id, s.clients[id]);
    if step.Consume? || step.Poll? || step.SyncReceive? || step.PostReceive? || step.PostAttempt? {
      ReceivingSteps(w, s, step);
    } else {
      OtherClientSteps(w, s, step);
    }
  }

  lemma ReceivingSteps(w: World, s: State, step: Step)
    requires step.Consume? || step.Poll? || step.SyncReceive? || step.PostReceive? || step.PostAttempt?
    requires TableInv(s) && Enabled(w, s, step) && ClientStep(w, s, step).Becomes?
    requires GoodClient(w, step.id, s.clients[step.id])
    ensures GoodClient(w, ClientStep(w, s, step).id, ClientStep(w, s, step).client)
  {
    var c := s.clients[step.id];
    if step.Consume? {
      ConsumeIsGood(w, step.id, c);
    } else if step.Poll? {
      ClaimedClient(s, step.id);
      ClaimIsGood(w, step.id, c);
    } else if step.SyncReceive? {
      ReceiveIsGood(w, step.id, c, Finished);
    } else if step.PostReceive? {
      ReceiveIsGood(w, step.id, c, Posting(c.chan[0], 1));
    } else {
      PostIsGood(w, step.id, c, step.ok);
    }
  }

  lemma OtherClientSteps(w: World, s: State, step: Step)
    requires Enabled(w, s, step) && ClientStep(w, s, step).Becomes?
    requires !step.Subscribe? && !step.OcrAnswer? && !step.Misdeliver? && !step.Consume? && !step.Poll?
    requires !step.SyncReceive? && !step.PostReceive? && !step.PostAttempt?
    requires GoodClient(w, step.id, s.clients[step.id])
    ensures ClientStep(w, s, step).id == step.id && GoodClient(w, step.id, ClientStep(w, s, step).client)
  {
    if step.ForeignDelivery? {
      NewDeliveryIsGood(w, step.id, s.clients[step.id], step.delivery, false);
    } else if step.Disconnect? {
      DisconnectedIsGood(w, step.id, s.clients[step.id]);
    } else {
      StageSteps(w, s, step);
    }
  }

  lemma DisconnectedIsGood(w: World, id: string, c: Client)
    requires GoodClient(w, id, c) && c.listening
    ensures GoodClient(w, id, c.(listening := false, lost := true, callback := []))
  {
  }

  /** Steps that change the stage of a client, and perhaps its posts. */
  lemma StageSteps(w: World, s: State, step: Step)
    requires Enabled(w, s, step)
    requires step.Abort? || step.Publish? || step.Track? || step.SyncTimeout? || step.Decay? || step.PostTimeout? ||
             step.PostDelete?
    requires GoodClient(w, step.id, s.clients[step.id])
    ensures var d := ClientStep(w, s, step);
            d.Becomes? && d.id == step.id && GoodClient(w, step.id, d.client)
  {
  }

  lemma ChangeKeepsGood(w: World, clients: map<string, Client>, d: ClientChange)
    requires forall id :: id in clients ==> GoodClient(w, id, clients[id])
    requires d.Becomes? ==> GoodClient(w, d.id, d.client)
    ensures forall id :: id in ClientsAfter(clients, d) ==> GoodClient(w, id, ClientsAfter(clients, d)[id])
  {
  }

  lemma ClientsInvStep(w: World, s: State, step: Step)
    requires WellConfigured(w) && NetInv(w, s) && ClientsInv(w, s) && TableInv(s) && Enabled(w, s, step)
    ensures ClientsInv(w, Apply(w, s, step))
  {
    ClientStepIsGood(w, s, step);
    ChangeKeepsGood(w, s.clients, ClientStep(w, s, step));
  }

  // ----- table and status answers: preservation -----

  lemma AddedAgrees(t: Table, id: string)
    requires Agrees(t) && t.gauge == |t.track| && id !in t.track
    ensures Agrees(Added(t, id)) && Added(t, id).gauge == |Added(t, id).track|
  {
    WrapStep(|t.track|);
  }

  lemma DeletedAgrees(t: Table, id: string)
    requires Agrees(t) && t.gauge == |t.track|
    ensures Agrees(Deleted(t, id)) && Deleted(t, id).gauge == |Deleted(t, id).track|
  {
    WrapStep(|t.track|);
  }

  lemma TableAgreesStep(w: World, s: State, step: Step)
    requires TableInv(s) && Enabled(w, s, step)
    ensures var t := TableAfter(s, step); Agrees(t) && t.gauge == |t.track|
  {
    match step
    case Track(id) => AddedAgrees(s.table, id);
    case Poll(id) => DeletedAgrees(s.table, id);
    case Decay(id) => DeletedAgrees(s.table, id);
    case PostDelete(id) => DeletedAgrees(s.table, id);
    case _ =>
  }

  /** A goroutine stops serving its request only in the step that removes the entry. */
  lemma ServingEndsWithDeletion(w: World, s: State, step: Step)
    requires TableInv(s) && Enabled(w, s, step)
    ensures var d := ClientStep(w, s, step);
            && (d.Becomes? && d.id in TableAfter(s, step).track ==> Served(d.client))
            && (forall id :: id in TableAfter(s, step).track ==> id in s.table.track || (step.Track? && id == step.id))
  {
    EntriesComeByTracking(w, s, step);
    TrackedIsServed(w, s, step);
  }

  lemma EntriesComeByTracking(w: World, s: State, step: Step)
    requires Enabled(w, s, step)
    ensures forall id :: id in TableAfter(s, step).track ==> id in s.table.track || (step.Track? && id == step.id)
  {
  }

  lemma TrackedIsServed(w: World, s: State, step: Step)
    requires TableInv(s) && Enabled(w, s, step) && (forall id ::
               id in TableAfter(s, step).track ==> id in s.table.track || (step.Track? && id == step.id))
    ensures var d := ClientStep(w, s, step);
            d.Becomes? && d.id in TableAfter(s, step).track ==> Served(d.client)
  {
    var d := ClientStep(w, s, step);
    if d.Becomes? && d.id in TableAfter(s, step).track && !step.Track? {
      assert d.id in s.clients && Served(s.clients[d.id]);
    }
  }

  lemma TableInvStep(w: World, s: State, step: Step)
    requires TableInv(s) && Enabled(w, s, step)
    ensures TableInv(Apply(w, s, step))
  {
    TableAgreesStep(w, s, step);
    ServingEndsWithDeletion(w, s, step);
  }

  lemma ServingBeginsWithTracking(w: World, s: State, step: Step)
    requires Enabled(w, s, step)
    ensures var d := ClientStep(w, s, step);
            d.Becomes? && Served(d.client) ==>
              (d.id in s.clients && Served(s.clients[d.id])) || (step.Track? && step.id == d.id)
  {
  }

  /** An entry disappears only for a claim, or in the step that ends its goroutine. */
  lemma DeletionIsClaimOrEnd(w: World, s: State, step: Step, id: string)
    requires Enabled(w, s, step) && id in s.table.track && id !in TableAfter(s, step).track
    ensures var d := ClientStep(w, s, step);
            (step == Poll(id) && PollAnswer(s, id).Claimed?) || (d.Becomes? && d.id == id && !Served(d.client))
  {
  }

  lemma HistoryGrows(w: World, s: State, step: Step, id: string)
    requires Enabled(w, s, step)
    ensures History(s, id) <= History(Apply(w, s, step), id)
    ensures step == Poll(id) ==> History(Apply(w, s, step), id) == History(s, id) + [PollAnswer(s, id)]
  {
  }

  lemma ServedInvStep(w: World, s: State, step: Step)
    requires ServedInv(s) && TableInv(s) && Enabled(w, s, step)
    ensures ServedInv(Apply(w, s, step))
  {
    var s' := Apply(w, s, step);
    ServingBeginsWithTracking(w, s, step);
    forall id | id in s'.clients && Served(s'.clients[id])
      ensures id in s'.table.track || WasClaimed(History(s', id))
    {
      HistoryGrows(w, s, step, id);
      if !(step.Track? && step.id == id) {
        if id in s.table.track {
          if id !in s'.table.track {
            DeletionIsClaimOrEnd(w, s, step, id);
            assert History(s', id)[|History(s, id)|].Claimed?;
          }
        } else {
          var k :| 0 <= k < |History(s, id)| && History(s, id)[k].Claimed?;
          assert History(s', id)[k].Claimed?;
        }
      }
    }
  }

  lemma PhaseSnoc(h: seq<Answer>, a: Answer)
    ensures Phase(h + [a]) == PhaseAfter(Phase(h), a)
  {
    assert (h + [a])[..|h|] == h;
  }

  /** Progress a client can make, as far as the status answers can tell. */
  ghost predicate HistoryExtends(c: map<string, Client>, c': map<string, Client>) {
    forall id :: id in c ==>
      && id in c'
      && (Served(c[id]) || c[id].stage.Finished? ==> Served(c'[id]) || c'[id].stage.Finished?)
      && (|c[id].receipts| == 1 ==> c'[id].receipts == c[id].receipts)
  }

  lemma ChangedProgress(w: World, s: State, step: Step)
    requires Enabled(w, s, step) && ClientStep(w, s, step).Becomes? && ClientStep(w, s, step).id in s.clients
    requires var c := s.clients[ClientStep(w, s, step).id]; |c.chan| + |c.receipts| <= 1
    ensures var d := ClientStep(w, s, step);
            var c := s.clients[d.id];
            && (Served(c) || c.stage.Finished? ==> Served(d.client) || d.client.stage.Finished?)
            && (|c.receipts| == 1 ==> d.client.receipts == c.receipts)
  {
  }

  lemma StepHistoryExtends(w: World, s: State, step: Step)
    requires ClientsInv(w, s) && Enabled(w, s, step)
    ensures HistoryExtends(s.clients, ClientsAfter(s.clients, ClientStep(w, s, step)))
  {
    var d := ClientStep(w, s, step);
    if d.Becomes? && d.id in s.clients {
      assert GoodClient(w, d.id, s.clients[d.id]);
      ChangedProgress(w, s, step);
    }
    ProgressExtends(s.clients, d);
  }

  lemma ProgressExtends(clients: map<string, Client>, d: ClientChange)
    requires d.Becomes? && d.id in clients ==>
               var c := clients[d.id];
               && (Served(c) || c.stage.Finished? ==> Served(d.client) || d.client.stage.Finished?)
               && (|c.receipts| == 1 ==> d.client.receipts == c.receipts)
    ensures HistoryExtends(clients, ClientsAfter(clients, d))
  {
  }

  lemma UnpolledHistory(w: World, s: State, s': State, id: string)
    requires HistoryInv(s, id) && HistoryExtends(s.clients, s'.clients)
    requires History(s', id) == History(s, id)
    requires id in s'.table.track ==> id in s.table.track || !Tracked(s, id)
    ensures HistoryInv(s', id)
  {
    assert id in s.clients && |s.clients[id].receipts| == 1 ==> s'.clients[id].receipts == s.clients[id].receipts;
  }

  lemma {:induction false} EarlyPhaseUnclaimed(h: seq<Answer>)
    requires Phase(h) <= 1
    ensures !WasClaimed(h)
  {
    if h != [] {
      EarlyPhaseUnclaimed(h[..|h| - 1]);
      assert forall k :: 0 <= k < |h| - 1 ==> h[k] == h[..|h| - 1][k];
    }
  }

  /** A history after a claim, given what the claim does to table and client. */
  lemma ClaimedHistory(s: State, s': State, id: string, res: OcrResult)
    requires HistoryInv(s, id) && Phase(History(s, id)) <= 1 && History(s', id) == History(s, id) + [Claimed(res)]
    requires id !in s'.table.track && Tracked(s', id) && s'.clients[id].receipts == [res]
    ensures HistoryInv(s', id)
  {
    PhaseSnoc(History(s, id), Claimed(res));
    EarlyPhaseUnclaimed(History(s, id));
    assert forall k :: 0 <= k < |History(s, id)| ==> History(s', id)[k] == History(s, id)[k];
  }

  lemma ClaimUntracks(w: World, s: State, id: string)
    requires ClientsInv(w, s) && TableInv(s) && PollAnswer(s, id).Claimed?
    ensures id in s.table.track && id !in TableAfter(s, Poll(id)).track
    ensures var c := ClientStep(w, s, Poll(id));
            c.Becomes? && c.id == id && Served(c.client) && c.client.receipts == [PollAnswer(s, id).result]
  {
    ClaimedClient(s, id);
    assert GoodClient(w, id, s.clients[id]);
    ClaimIsGood(w, id, s.clients[id]);
    assert ClientStep(w, s, Poll(id)) == Becomes(id, Received(s.clients[id]));
  }

  lemma ClaimedClient(s: State, id: string)
    requires TableInv(s) && PollAnswer(s, id).Claimed?
    ensures id in s.table.track && id in s.clients && Served(s.clients[id]) && s.clients[id].chan != []
    ensures PollAnswer(s, id) == Claimed(s.clients[id].chan[0])
  {
  }

  lemma UnclaimedHistory(w: World, s: State, id: string)
    requires HistoryInv(s, id) && TableInv(s) && !PollAnswer(s, id).Claimed?
    ensures HistoryInv(Apply(w, s, Poll(id)), id)
  {
    PhaseSnoc(History(s, id), PollAnswer(s, id));
    HistoryGrows(w, s, Poll(id), id);
  }

  lemma TableStep(w: World, s: State, step: Step, id: string)
    requires TableInv(s) && Enabled(w, s, step)
    ensures id in Apply(w, s, step).table.track ==> id in s.table.track || !Tracked(s, id)
  {
    ServingEndsWithDeletion(w, s, step);
  }

  lemma HistoryStep(w: World, s: State, step: Step, id: string)
    requires ClientsInv(w, s) && TableInv(s) && HistoryInv(s, id) && Enabled(w, s, step)
    requires HistoryExtends(s.clients, Apply(w, s, step).clients)
    ensures HistoryInv(Apply(w, s, step), id)
  {
    if step == Poll(id) && PollAnswer(s, id).Claimed? {
      ClaimUntracks(w, s, id);
      HistoryGrows(w, s, step, id);
      ClaimedHistory(s, Apply(w, s, step), id, PollAnswer(s, id).result);
    } else if step == Poll(id) {
      UnclaimedHistory(w, s, id);
    } else {
      TableStep(w, s, step, id);
      UnpolledHistory(w, s, Apply(w, s, step), id);
    }
  }

  lemma AnswersInvStep(w: World, s: State, step: Step)
    requires ClientsInv(w, s) && TableInv(s) && AnswersInv(s) && Enabled(w, s, step)
    ensures AnswersInv(Apply(w, s, step))
  {
    StepHistoryExtends(w, s, step);
    forall id
      ensures HistoryInv(Apply(w, s, step), id)
    {
      assert HistoryInv(s, id);
      HistoryStep(w, s, step, id);
    }
  }

  // ----- nothing is lost: preservation -----

  lemma AnsweredClients(w: World, s: State, step: Step)
    requires AnsweredInv(s) && NetInv(w, s) && Enabled(w, s, step)
    ensures AnswersReach(s.answered, ClientsAfter(s.clients, ClientStep(w, s, step)))
  {
    var d := ClientStep(w, s, step);
    StepExtends(w, s, step);
    if d.Becomes? && d.id in s.answered {
      AnsweredClient(w, s, step);
    }
  }

  lemma AnsweredClient(w: World, s: State, step: Step)
    requires AnsweredInv(s) && Enabled(w, s, step) && ClientStep(w, s, step).Becomes?
    requires ClientStep(w, s, step).id in s.answered
    ensures HasAnswer(ClientStep(w, s, step).id, ClientStep(w, s, step).client)
  {
    var d := ClientStep(w, s, step);
    var c := s.clients[d.id];
    if c.listening && !c.lost && d.client.listening {
      var k :| 0 <= k < |c.callback| && c.callback[k].corr == d.id;
      if step.Consume? {
        assert d.client.callback[k - 1] == c.callback[k];
      } else {
        assert d.client.callback[k] == c.callback[k];
      }
    }
  }

  lemma NewAnswer(w: World, s: State, n: nat, run: EngineRun)
    requires NetInv(w, s) && Enabled(w, s, OcrAnswer(n, run))
    ensures var id := s.net[n].msg.corr;
            var c' := ClientsAfter(s.clients, ClientStep(w, s, OcrAnswer(n, run)));
            id in c' && HasLeft(c'[id]) && HasAnswer(id, c'[id])
  {
    assert GoodItem(w, s.clients, s.net[n]);
    var id := s.net[n].msg.corr;
    var d := ClientStep(w, s, OcrAnswer(n, run));
    if d.Becomes? {
      assert d.client.callback[|s.clients[id].callback|].corr == id;
    }
  }

  lemma AnsweredItems(w: World, s: State, step: Step)
    requires AnsweredInv(s) && Enabled(w, s, step)
    ensures HandsAnswered(AnsweredAfter(w, s, step), NetAfter(s.net, NetStep(w, s, step)))
  {
    var d := NetStep(w, s, step);
    var net := NetAfter(s.net, d);
    forall n | 0 <= n < |net| && HasAnswered(net[n])
      ensures net[n].msg.corr in AnsweredAfter(w, s, step)
    {
      if !((d.Move? && n == d.n) || (d.Send? && n == |s.net|)) {
        var k := if d.End? && n >= d.n then n + 1 else n;
        assert net[n] == s.net[k];
      }
    }
  }

  lemma AnsweredEndings(w: World, s: State, step: Step)
    requires AnsweredInv(s) && Enabled(w, s, step)
    ensures AcksAnswered(AnsweredAfter(w, s, step), EndingsAfter(s.net, s.endings, NetStep(w, s, step)))
  {
    if step.OcrAck? { assert HasAnswered(s.net[step.n]); }
  }

  lemma AnsweredReach(w: World, s: State, step: Step)
    requires AnsweredInv(s) && NetInv(w, s) && Enabled(w, s, step)
    ensures AnswersReach(AnsweredAfter(w, s, step), ClientsAfter(s.clients, ClientStep(w, s, step)))
  {
    AnsweredClients(w, s, step);
    if step.OcrAnswer? { NewAnswer(w, s, step.n, step.run); }
  }

  lemma AnsweredInvStep(w: World, s: State, step: Step)
    requires AnsweredInv(s) && NetInv(w, s) && Enabled(w, s, step)
    ensures AnsweredInv(Apply(w, s, step))
  {
    AnsweredReach(w, s, step);
    AnsweredItems(w, s, step);
    AnsweredEndings(w, s, step);
  }

  lemma {:induction false} InFlightUpdate(net: seq<Item>, n: nat, x: Item, id: string)
    requires n < |net|
    ensures InFlight(net[n := x], id) ==
            InFlight(net, id) - (if net[n].msg.corr == id then 1 else 0) + (if x.msg.corr == id then 1 else 0)
  {
    var last := |net| - 1;
    if n < last {
      assert net[n := x][..last] == net[..last][n := x];
      InFlightUpdate(net[..last], n, x, id);
    } else {
      assert net[n := x][..last] == net[..last];
    }
  }

  lemma {:induction false} InFlightRemove(net: seq<Item>, n: nat, id: string)
    requires n < |net|
    ensures InFlight(net[..n] + net[n + 1..], id) == InFlight(net, id) - if net[n].msg.corr == id then 1 else 0
  {
    var last := |net| - 1;
    if n < last {
      assert (net[..n] + net[n + 1..])[..last - 1] == net[..last][..n] + net[..last][n + 1..];
      InFlightRemove(net[..last], n, id);
    } else {
      assert net[..n] + net[n + 1..] == net[..last];
    }
  }

  /** Messages in flight and ended, together, change only when one is published. */
  lemma TokensStep(net: seq<Item>, endings: seq<Ending>, d: NetChange, id: string)
    requires d.Move? || d.End? ==> d.n < |net|
    requires d.Move? ==> d.item.msg.corr == net[d.n].msg.corr
    ensures InFlight(NetAfter(net, d), id) + Endings(EndingsAfter(net, endings, d), id)
            == InFlight(net, id) + Endings(endings, id)
               + (if (d.Send? && d.item.msg.corr == id) || (d.Unsent? && d.ending.corr == id) then 1 else 0)
  {
    match d
    case Keep =>
    case Send(x) => assert (net + [x])[..|net|] == net;
    case Unsent(e) => assert (endings + [e])[..|endings|] == endings;
    case Move(n, x) => InFlightUpdate(net, n, x, id);
    case End(n, reason) =>
      InFlightRemove(net, n, id);
      var e := Ending(net[n].msg.corr, reason);
      assert (endings + [e])[..|endings|] == endings;
  }

  lemma LeavingIsPublishing(w: World, s: State, step: Step, id: string)
    requires Enabled(w, s, step)
    ensures var c' := ClientsAfter(s.clients, ClientStep(w, s, step));
            id in c' && HasLeft(c'[id]) <==>
              (id in s.clients && HasLeft(s.clients[id])) || (step.Publish? && step.id == id)
  {
    var d := ClientStep(w, s, step);
    if d.Becomes? && d.id == id {
      if step.Subscribe? {
        assert !HasLeft(d.client);
      } else {
        OnlyKnownClients(w, s, step);
        LeavesByPublishing(w, s, step);
        if step.Publish? { assert d.id == step.id; }
      }
    } else if step.Publish? {
      assert d.Becomes? && d.id == step.id;
    }
  }

  lemma MovesKeepCorrelation(w: World, s: State, step: Step)
    requires Enabled(w, s, step)
    ensures var d := NetStep(w, s, step);
            && (d.Move? || d.End? ==> d.n < |s.net|)
            && (d.Move? ==> d.item.msg.corr == s.net[d.n].msg.corr)
            && (d.Send? ==> step.Publish? && d.item.msg.corr == step.id)
            && (d.Unsent? ==> step.Publish? && d.ending.corr == step.id)
            && (step.Publish? ==> d.Send? || d.Unsent?)
  {
  }

  lemma ConservationInvStep(w: World, s: State, step: Step)
    requires ConservationInv(s) && Enabled(w, s, step)
    ensures ConservationInv(Apply(w, s, step))
  {
    MovesKeepCorrelation(w, s, step);
    forall id
      ensures Conserved(Apply(w, s, step), id)
    {
      assert Conserved(s, id);
      TokensStep(s.net, s.endings, NetStep(w, s, step), id);
      LeavingIsPublishing(w, s, step, id);
    }
  }

  // ----- all together -----

  lemma InvStep(w: World, s: State, step: Step)
    requires WellConfigured(w) && Inv(w, s) && Enabled(w, s, step)
    ensures Inv(w, Apply(w, s, step))
  {
    NetInvStep(w, s, step);
    ClientsInvStep(w, s, step);
    TableInvStep(w, s, step);
    ServedInvStep(w, s, step);
    AnswersInvStep(w, s, step);
    AnsweredInvStep(w, s, step);
    ConservationInvStep(w, s, step);
  }

  lemma {:induction false} InvRun(w: World, s: State, steps: seq<Step>)
    requires WellConfigured(w) && Inv(w, s) && Valid(w, s, steps)
    ensures Inv(w, Run(w, s, steps))
    decreases |steps|
  {
    if steps != [] {
      InvStep(w, s, steps[0]);
      InvRun(w, Apply(w, s, steps[0]), steps[1..]);
    }
  }

  lemma InvReachable(w: World, steps: seq<Step>)
    requires WellConfigured(w) && Valid(w, INIT, steps)
    ensures Inv(w, Run(w, INIT, steps))
  {
    InvRun(w, INIT, steps);
  }
}
