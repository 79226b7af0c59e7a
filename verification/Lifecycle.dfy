/** The OCR request protocol as a machine: clients, the broker, preprocessor workers, OCR
    workers, status pollers and the decay and postback goroutines take steps in any order. */
module Lifecycle {
  import opened OcrTypes
  import opened OcrRequests
  import opened Pipeline
  import opened ResultsStorage

  // ----- state -----

  datatype Message = Message(corr: string, replyTo: string, body: Request)

  /** In a broker queue, with a preprocessor worker (no acknowledgement, so the broker has
      forgotten it), or unacknowledged with an OCR worker, under a delivery tag, answered or not. */
  datatype Place = Queued(key: string) | PreHand(key: string) | OcrHand(tag: nat, answered: bool)

  datatype Item = Item(place: Place, msg: Message)

  /** Why a message is no longer around. */
  datatype Reason =
    | Acknowledged | NoQueue(key: string) | Misrouted(key: string)
    | PreprocessingFailed | WorkerCrashed | BrokerLost

  datatype Ending = Ending(corr: string, reason: Reason)

  datatype Delivery = Delivery(corr: string, result: OcrResult)

  /** The goroutine that serves the request: `Sent` also stands for the synchronous wait. */
  datatype Stage =
    | Subscribed | Aborted | Sent | Decaying | Awaiting
    | Posting(result: OcrResult, attempt: nat) | Deleting | Finished

  datatype Client = Client(
    submitted: Request,
    callback: seq<Delivery>,    // the exclusive callback queue
    listening: bool,            // the response goroutine still loops over it
    lost: bool,                 // the connection broke before a response was taken
    chan: seq<OcrResult>,       // the buffered response channel
    receipts: seq<OcrResult>,   // everything anybody ever received from that channel
    posts: seq<OcrResult>,      // everything posted to the reply-to address
    erred: bool,                // an error of the OCR worker was reported into the callback queue
    stage: Stage)

  datatype State = State(
    net: seq<Item>,
    endings: seq<Ending>,
    answered: set<string>,              // identifiers for which a response was published
    clients: map<string, Client>,
    order: seq<string>,                 // the clients in order of arrival
    table: Table,
    answers: map<string, seq<Answer>>)  // status answers given, by identifier

  const INIT := State([], [], {}, map[], [], EMPTY, map[])

  /** How an OCR worker fares with a message; `Garbled` is a body it cannot unmarshal. */
  datatype EngineRun = Ran | Failed(error: string) | Garbled(error: string)

  datatype Step =
    | Subscribe(request: Request)
    | Abort(id: string)
    | Publish(id: string)
    | Track(id: string)
    | PreTake(n: nat)
    | PreDone(n: nat)
    | PreFail(n: nat, reason: Reason)
    | Lose(n: nat)
    | Misdeliver(n: nat)      // the key is the name of a callback queue
    | OcrTake(n: nat, tag: nat)
    | OcrAnswer(n: nat, run: EngineRun)
    | OcrAck(n: nat)
    | Redeliver(n: nat)
    | ForeignDelivery(id: string, delivery: Delivery)
    | Consume(id: string)
    | Disconnect(id: string)
    | Poll(id: string)
    | SyncReceive(id: string)
    | SyncTimeout(id: string)
    | Decay(id: string)
    | PostReceive(id: string)
    | PostTimeout(id: string)
    | PostAttempt(id: string, ok: bool)
    | PostDelete(id: string)

  // ----- values computed by the parties -----

  predicate Bound(w: World, key: string) {
    key == w.ocrKey || key in w.preKeys
  }

  /** The broker has a queue for this key: a worker's, or the callback queue of a client. */
  predicate Routable(w: World, s: State, key: string) {
    Bound(w, key) || (key in s.clients && s.clients[key].listening)
  }

  /** What the client publishes: the normalised request with the first key popped. */
  function FirstMessage(w: World, id: string, r: Request): Message {
    Message(id, id, r.(chain := Popped(r.chain)))
  }

  function ErrorText(id: string): string {
    "Error processing image url: " + id + ".  Error: "
  }

  function GarbledText(corr: string): string {
    "Error unmarshalling json: " + corr + ".  Error: "
  }

  /** The OCR worker's result for a message; the identifier is left to the client. */
  function WorkerResult(w: World, m: Message, run: EngineRun): OcrResult
    requires run.Ran? ==> EngineImage(w, m.body).Some?
  {
    match run
    case Ran => w.engine(m.body.settings, m.body.timeOut, EngineImage(w, m.body).value)
    case Failed(e) => OcrResult(ErrorText(m.body.settings.requestID) + e, "error", "")
    case Garbled(e) => OcrResult(GarbledText(m.corr) + e, "error", m.corr)
  }

  function TimeoutResult(id: string): OcrResult {
    OcrResult("", "error", id)
  }

  function Attempts(w: World): nat {
    if w.numRetries == 0 then 1 else w.numRetries
  }

  // ----- steps -----

  predicate AtStage(s: State, id: string, stage: Stage) { id in s.clients && s.clients[id].stage == stage }

  predicate Enabled(w: World, s: State, step: Step) {
    match step
    case Subscribe(r) =>
      Prepared(w, r).Some? && !Bound(w, r.settings.requestID) && r.settings.requestID !in s.clients
    case Abort(id) => AtStage(s, id, Subscribed)
    case Publish(id) => AtStage(s, id, Subscribed) && Normalised(w, s.clients[id].submitted).Some?
    case Track(id) => AtStage(s, id, Sent) && s.clients[id].submitted.deferred
    case PreTake(n) => n < |s.net| && s.net[n].place.Queued? && s.net[n].place.key in w.preKeys
    case PreDone(n) => n < |s.net| && s.net[n].place.PreHand?
    case PreFail(n, reason) =>
      n < |s.net| && s.net[n].place.PreHand? && (reason.PreprocessingFailed? || reason.WorkerCrashed?)
    case Lose(n) => n < |s.net| && s.net[n].place.Queued?
    case Misdeliver(n) => n < |s.net| && s.net[n].place.Queued? && !Bound(w, s.net[n].place.key)
    case OcrTake(n, tag) => n < |s.net| && s.net[n].place == Queued(w.ocrKey)
    case OcrAnswer(n, run) =>
      && n < |s.net| && s.net[n].place.OcrHand? && !s.net[n].place.answered
      && (run.Ran? ==> EngineImage(w, s.net[n].msg.body).Some?)
    case OcrAck(n) => n < |s.net| && s.net[n].place.OcrHand? && s.net[n].place.answered
    case Redeliver(n) => n < |s.net| && s.net[n].place.OcrHand?
    case ForeignDelivery(id, d) => id in s.clients && s.clients[id].listening && d.corr != id
    case Consume(id) =>
      && id in s.clients && s.clients[id].listening && s.clients[id].callback != []
      && (s.clients[id].callback[0].corr == id ==> |s.clients[id].chan| < w.capacity)
    case Disconnect(id) => id in s.clients && s.clients[id].listening
    case Poll(id) => true
    case SyncReceive(id) => AtStage(s, id, Sent) && !s.clients[id].submitted.deferred && s.clients[id].chan != []
    case SyncTimeout(id) => AtStage(s, id, Sent) && !s.clients[id].submitted.deferred
    case Decay(id) => AtStage(s, id, Decaying)
    case PostReceive(id) => AtStage(s, id, Awaiting) && s.clients[id].chan != []
    case PostTimeout(id) => AtStage(s, id, Awaiting)
    case PostAttempt(id, ok) => id in s.clients && s.clients[id].stage.Posting?
    case PostDelete(id) => AtStage(s, id, Deleting)
  }

  // What a step does to the messages.

  datatype NetChange =
    | Keep
    | Send(item: Item)
    | Unsent(ending: Ending)          // published under a key nobody bound
    | Move(n: nat, item: Item)
    | End(n: nat, reason: Reason)

  /** Publishing message `m` under `key` in the place of the `n`-th message. */
  function Forward(w: World, s: State, n: nat, key: string, m: Message): NetChange {
    if Routable(w, s, key) then Move(n, Item(Queued(key), m)) else End(n, NoQueue(key))
  }

  /** Publishing a new message `m` under `key`. */
  function Routed(w: World, s: State, key: string, m: Message): NetChange {
    if Routable(w, s, key) then Send(Item(Queued(key), m)) else Unsent(Ending(m.corr, NoQueue(key)))
  }

  function NetStep(w: World, s: State, step: Step): NetChange
    requires Enabled(w, s, step)
  {
    match step
    case Publish(id) =>
      var r := Normalised(w, s.clients[id].submitted).value;
      Routed(w, s, NextKey(w, r.chain), FirstMessage(w, id, r))
    case PreTake(n) => Move(n, s.net[n].(place := PreHand(s.net[n].place.key)))
    case PreDone(n) =>
      var m := s.net[n].msg;
      Forward(w, s, n, NextKey(w, m.body.chain), m.(body := Hop(w, s.net[n].place.key, m.body)))
    case PreFail(n, reason) => End(n, reason)
    case Lose(n) => End(n, BrokerLost)
    case Misdeliver(n) => End(n, Misrouted(s.net[n].place.key))
    case OcrTake(n, tag) => Move(n, s.net[n].(place := OcrHand(tag, false)))
    case OcrAnswer(n, run) => Move(n, s.net[n].(place := OcrHand(s.net[n].place.tag, true)))
    case OcrAck(n) => End(n, Acknowledged)
    case Redeliver(n) => Move(n, s.net[n].(place := Queued(w.ocrKey)))
    case _ => Keep
  }

  function NetAfter(net: seq<Item>, d: NetChange): seq<Item>
    requires d.Move? || d.End? ==> d.n < |net|
  {
    match d
    case Keep => net
    case Send(x) => net + [x]
    case Unsent(_) => net
    case Move(n, x) => net[n := x]
    case End(n, _) => net[..n] + net[n + 1..]
  }

  function EndingsAfter(net: seq<Item>, endings: seq<Ending>, d: NetChange): seq<Ending>
    requires d.End? ==> d.n < |net|
  {
    match d
    case Unsent(e) => endings + [e]
    case End(n, reason) => endings + [Ending(net[n].msg.corr, reason)]
    case _ => endings
  }

  // What a step does to a client: every step touches at most one.

  datatype ClientChange = Nobody | Becomes(id: string, client: Client)

  /** Taking the head of the response channel. */
  function Received(c: Client): Client
    requires c.chan != []
  {
    c.(chan := c.chan[1..], receipts := c.receipts + [c.chan[0]])
  }

  /** One round of the response goroutine: the first delivery with the right correlation ID is
      forwarded and ends the loop (and with it the connection and its queue), others are ignored. */
  function Consumed(id: string, c: Client): Client
    requires c.callback != []
  {
    var d := c.callback[0];
    if d.corr == id then c.(chan := c.chan + [d.result.(id := id)], listening := false, callback := [])
    else c.(callback := c.callback[1..])
  }

  function PostTried(w: World, c: Client, ok: bool): Client
    requires c.stage.Posting?
  {
    var n := c.stage.attempt;
    c.(posts := c.posts + [c.stage.result],
       stage := if !ok && n + 1 <= w.numRetries then Posting(c.stage.result, n + 1) else Deleting)
  }

  /** A status query takes the result if there is one, and then removes the entry. */
  function PollAnswer(s: State, id: string): Answer {
    StatusOf(s.table, if id in s.clients then s.clients[id].chan else [], id)
  }

  function NewClient(r: Request): Client {
    Client(r, [], true, false, [], [], [], false, Subscribed)
  }

  /** A delivery enters the callback queue `key`, if its exclusive consumer is still there. */
  function CalledBack(s: State, key: string, d: Delivery, erred: bool): ClientChange {
    if key in s.clients && s.clients[key].listening then Becomes(key, WithDelivery(s.clients[key], d, erred))
    else Nobody
  }

  function WithDelivery(c: Client, d: Delivery, erred: bool): Client {
    c.(callback := c.callback + [d], erred := c.erred || erred)
  }

  function ClientStep(w: World, s: State, step: Step): ClientChange
    requires Enabled(w, s, step)
  {
    match step
    case Subscribe(r) => Becomes(r.settings.requestID, NewClient(Prepared(w, r).value))
    case Abort(id) => Becomes(id, s.clients[id].(stage := Aborted))
    case Publish(id) => Becomes(id, s.clients[id].(stage := Sent))
    case Track(id) =>
      Becomes(id, s.clients[id].(stage := if s.clients[id].submitted.replyTo == "" then Decaying else Awaiting))
    // The body of a request has none of the keys of a result.
    case Misdeliver(n) => CalledBack(s, s.net[n].place.key, Delivery(s.net[n].msg.corr, NO_RESULT), false)
    case OcrAnswer(n, run) =>
      var m := s.net[n].msg;
      CalledBack(s, m.replyTo, Delivery(m.corr, WorkerResult(w, m, run)), !run.Ran?)
    case ForeignDelivery(id, d) => CalledBack(s, id, d, false)
    case Consume(id) => Becomes(id, Consumed(id, s.clients[id]))
    case Disconnect(id) => Becomes(id, s.clients[id].(listening := false, lost := true, callback := []))
    case Poll(id) =>
      if PollAnswer(s, id).Claimed? && id in s.clients then Becomes(id, Received(s.clients[id])) else Nobody
    case SyncReceive(id) => Becomes(id, Received(s.clients[id]).(stage := Finished))
    case SyncTimeout(id) => Becomes(id, s.clients[id].(stage := Finished))
    case Decay(id) => Becomes(id, s.clients[id].(stage := Finished))
    case PostReceive(id) => Becomes(id, Received(s.clients[id]).(stage := Posting(s.clients[id].chan[0], 1)))
    case PostTimeout(id) =>
      Becomes(id, s.clients[id].(posts := s.clients[id].posts + [TimeoutResult(id)], stage := Deleting))
    case PostAttempt(id, ok) => Becomes(id, PostTried(w, s.clients[id], ok))
    case PostDelete(id) => Becomes(id, s.clients[id].(stage := Finished))
    case _ => Nobody
  }

  function ClientsAfter(clients: map<string, Client>, d: ClientChange): map<string, Client> {
    if d.Nobody? then clients else clients[d.id := d.client]
  }

  // What a step does to the table, to the status answers and to the answered set.

  function TableAfter(s: State, step: Step): Table {
    match step
    case Track(id) => Added(s.table, id)
    case Poll(id) => if PollAnswer(s, id).Claimed? then Deleted(s.table, id) else s.table
    case Decay(id) => Deleted(s.table, id)
    case PostDelete(id) => Deleted(s.table, id)
    case _ => s.table
  }

  function History(s: State, id: string): seq<Answer> {
    if id in s.answers then s.answers[id] else []
  }

  function AnswersAfter(s: State, step: Step): map<string, seq<Answer>> {
    if step.Poll? then s.answers[step.id := History(s, step.id) + [PollAnswer(s, step.id)]] else s.answers
  }

  function AnsweredAfter(w: World, s: State, step: Step): set<string>
    requires Enabled(w, s, step)
  {
    if step.OcrAnswer? then s.answered + {s.net[step.n].msg.corr} else s.answered
  }

  function Apply(w: World, s: State, step: Step): State
    requires Enabled(w, s, step)
  {
    var net, client := NetStep(w, s, step), ClientStep(w, s, step);
    State(NetAfter(s.net, net),
          EndingsAfter(s.net, s.endings, net),
          AnsweredAfter(w, s, step),
          ClientsAfter(s.clients, client),
          if step.Subscribe? then s.order + [step.request.settings.requestID] else s.order,
          TableAfter(s, step),
          AnswersAfter(s, step))
  }

  predicate Valid(w: World, s: State, steps: seq<Step>)
    decreases |steps|
  {
    steps == [] || (Enabled(w, s, steps[0]) && Valid(w, Apply(w, s, steps[0]), steps[1..]))
  }

  function Run(w: World, s: State, steps: seq<Step>): State
    requires Valid(w, s, steps)
    decreases |steps|
  {
    if steps == [] then s else Run(w, Apply(w, s, steps[0]), steps[1..])
  }

  lemma RunCons(w: World, s: State, step: Step, rest: seq<Step>)
    requires Enabled(w, s, step) && Valid(w, Apply(w, s, step), rest)
    ensures Valid(w, s, [step] + rest) && Run(w, s, [step] + rest) == Run(w, Apply(w, s, step), rest)
  {
    assert ([step] + rest)[1..] == rest;
  }
}
