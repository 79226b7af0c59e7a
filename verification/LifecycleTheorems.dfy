/** What holds of every run of the protocol, from the empty state, in any interleaving. */
module LifecycleTheorems {
  import opened OcrTypes
  import opened OcrRequests
  import opened Pipeline
  import opened ResultsStorage
  import opened Lifecycle
  import opened LifecycleInv

  // ----- whose result is it -----

  /** `r` is the client's view of a request subscribed under `id` in this run. */
  ghost predicate Originates(w: World, steps: seq<Step>, id: string, r: Request) {
    exists k :: 0 <= k < |steps| && steps[k].Subscribe? && Origin(w, steps[k].request, id, r)
  }

  predicate Origin(w: World, submitted: Request, id: string, r: Request) {
    submitted.settings.requestID == id && Prepared(w, submitted) == Some(r)
  }

  lemma {:induction false} ClientsOriginate(w: World, s: State, steps: seq<Step>, id: string)
    requires Valid(w, s, steps) && id in Run(w, s, steps).clients
    ensures var r := Run(w, s, steps).clients[id].submitted;
            (id in s.clients && s.clients[id].submitted == r) || Originates(w, steps, id, r)
    decreases |steps|
  {
    if steps != [] {
      var s1 := Apply(w, s, steps[0]);
      var r := Run(w, s, steps).clients[id].submitted;
      StepExtends(w, s, steps[0]);
      ClientsOriginate(w, s1, steps[1..], id);
      if Originates(w, steps[1..], id, r) {
        var k :| 0 <= k < |steps[1..]| && steps[1..][k].Subscribe? && Origin(w, steps[1..][k].request, id, r);
        assert steps[k + 1] == steps[1..][k];
      } else if id !in s.clients {
        assert steps[0].Subscribe? && Origin(w, steps[0].request, id, r);
      }
    }
  }

  /** Every message in flight with correlation ID `id`, wherever it is, stems from the one request
      submitted under `id`: for some k it was published under the key behind the last k names of
      the chain, its chain is the untouched rest, its image is the client's image folded over
      exactly those k names and its other fields are the client's. */
  lemma MessagesCarryOwnImage(w: World, steps: seq<Step>, n: nat) returns (k: nat)
    requires WellConfigured(w) && Valid(w, INIT, steps) && n < |Run(w, INIT, steps).net|
    ensures var s := Run(w, INIT, steps);
            var x := s.net[n];
            var id := x.msg.corr;
            && x.msg.replyTo == id && id in s.clients && Originates(w, steps, id, s.clients[id].submitted)
            && Normalised(w, s.clients[id].submitted).Some?
            && FoldedAway(w, Normalised(w, s.clients[id].submitted).value, KeyOf(w, x.place), x.msg.body, k)
            && FoldsAsked(w, s.clients[id].submitted, x.msg.body, k)
  {
    InvReachable(w, steps);
    var s := Run(w, INIT, steps);
    var x := s.net[n];
    assert GoodItem(w, s.clients, x);
    ClientsOriginate(w, INIT, steps, x.msg.corr);
    var r, key := Normalised(w, s.clients[x.msg.corr].submitted).value, KeyOf(w, x.place);
    k :| OnWire(w, r, key, x.msg.body, k);
    OnWireMeaning(w, r, key, x.msg.body, k);
    WireFoldsAsked(w, s.clients[x.msg.corr].submitted, key, x.msg.body, k);
  }

  /** No crosstalk: whatever comes back for `id` -- deliveries with its correlation ID in its
      callback queue, the response channel, what anybody received from it, was posted back or
      was told to a status query -- carries the identifier `id` from the channel on and was
      computed from the one request submitted under `id` (or reports a timeout). */
  lemma NoCrosstalk(w: World, steps: seq<Step>, id: string)
    requires WellConfigured(w) && Valid(w, INIT, steps) && id in Run(w, INIT, steps).clients
    ensures var s := Run(w, INIT, steps);
            var c := s.clients[id];
            && Originates(w, steps, id, c.submitted)
            && (forall d :: d in c.callback && d.corr == id ==> Own(w, c.submitted, c.erred, d.result))
            && (forall r :: r in c.chan || r in c.receipts ==> Mine(w, id, c, r))
            && (forall r :: r in c.posts ==> Mine(w, id, c, r) || r == TimeoutResult(id))
            && (forall a :: a in History(s, id) && a.Claimed? ==> Mine(w, id, c, a.result))
  {
    InvReachable(w, steps);
    ClientsOriginate(w, INIT, steps, id);
    var s := Run(w, INIT, steps);
    var c := s.clients[id];
    assert GoodClient(w, id, c) && HistoryInv(s, id);
    PostsAreOwn(w, id, c);
  }

  lemma PostsAreOwn(w: World, id: string, c: Client)
    requires GoodClient(w, id, c)
    ensures forall k :: 0 <= k < |c.posts| ==>
              c.posts[k] == TimeoutResult(id) || (|c.receipts| == 1 && c.posts[k] == c.receipts[0])
  {
  }

  // ----- self-addressed requests -----

  lemma ComesHome(w: World, s: State, id: string, body: Request)
    requires WellConfigured(w) && !Bound(w, id) && s.net == [Item(Queued(id), Message(id, id, body))]
    requires id in s.clients && s.clients[id].listening && s.clients[id].callback == [] && s.clients[id].chan == []
    ensures Valid(w, s, [Misdeliver(0), Consume(id)])
    ensures var clients := Run(w, s, [Misdeliver(0), Consume(id)]).clients;
            && id in clients && clients[id].submitted == s.clients[id].submitted
            && clients[id].chan == [NO_RESULT.(id := id)]
  {
    var s1 := Apply(w, s, Misdeliver(0));
    RunCons(w, s1, Consume(id), []);
    RunCons(w, s, Misdeliver(0), [Consume(id)]);
  }

  /** Preprocessors carry a message whose fate is the callback queue of `id` into that queue. */
  lemma {:induction false} TravelsHome(w: World, s: State, id: string, key: string, body: Request)
    returns (steps: seq<Step>)
    requires WellConfigured(w) && Fate(w, key, body) == Unroutable(id)
    requires s.net == [Item(Queued(key), Message(id, id, body))]
    requires id in s.clients && s.clients[id].listening && s.clients[id].callback == [] && s.clients[id].chan == []
    ensures Valid(w, s, steps)
    ensures var clients := Run(w, s, steps).clients;
            && id in clients && clients[id].submitted == s.clients[id].submitted
            && clients[id].chan == [NO_RESULT.(id := id)]
    decreases |body.chain|
  {
    if key in w.preKeys {
      var next := Hop(w, key, body);
      var s1 := Apply(w, s, PreTake(0));
      var s2 := Apply(w, s1, PreDone(0));
      assert s2 == s.(net := [Item(Queued(NextKey(w, body.chain)), Message(id, id, next))]);
      steps := TravelsHome(w, s2, id, NextKey(w, body.chain), next);
      RunCons(w, s1, PreDone(0), steps);
      RunCons(w, s, PreTake(0), [PreDone(0)] + steps);
      steps := [PreTake(0)] + ([PreDone(0)] + steps);
    } else {
      ComesHome(w, s, id, body);
      steps := [Misdeliver(0), Consume(id)];
    }
  }

  /** The result in the channel of `id`, or received from it, was not computed from `r`. */
  ghost predicate Misled(w: World, steps: seq<Step>, id: string, r: Request) {
    && Valid(w, INIT, steps)
    && var clients := Run(w, INIT, steps).clients;
    && id in clients && clients[id].submitted == r
    && exists res :: res in clients[id].chan + clients[id].receipts && !Derived(w, r, true, res)
  }

  lemma SelfAddressedIsMisled(w: World, request: Request) returns (steps: seq<Step>)
    requires WellConfigured(w) && Prepared(w, request).Some? && !Bound(w, request.settings.requestID)
    requires SelfAddressed(w, Prepared(w, request).value)
    ensures Misled(w, steps, request.settings.requestID, Prepared(w, request).value)
  {
    var id, r := request.settings.requestID, Normalised(w, Prepared(w, request).value).value;
    var s1 := Apply(w, INIT, Subscribe(request));
    var s2 := Apply(w, s1, Publish(id));
    steps := TravelsHome(w, s2, id, NextKey(w, r.chain), r.(chain := Popped(r.chain)));
    var clients := Run(w, s2, steps).clients;
    RunCons(w, s1, Publish(id), steps);
    RunCons(w, INIT, Subscribe(request), [Publish(id)] + steps);
    steps := [Subscribe(request)] + ([Publish(id)] + steps);
    assert clients[id].chan[0] in clients[id].chan + clients[id].receipts;
  }

  /** An accepted request can get a result that was not computed from it if and only if its
      chain, after the names that preprocessors take off its end, names its own identifier: its
      own message then comes back to it and is read as an empty result. */
  lemma MisledIffSelfAddressed(w: World, request: Request)
    requires WellConfigured(w) && Prepared(w, request).Some? && !Bound(w, request.settings.requestID)
    ensures var r := Prepared(w, request).value;
            (exists steps :: Misled(w, steps, request.settings.requestID, r)) <==> SelfAddressed(w, r)
  {
    var id, r := request.settings.requestID, Prepared(w, request).value;
    if SelfAddressed(w, r) {
      var steps := SelfAddressedIsMisled(w, request);
    }
    forall steps | Misled(w, steps, id, r)
      ensures SelfAddressed(w, r)
    {
      NoCrosstalk(w, steps, id);
    }
  }

  /** And that is visible in the chain: the name before the trailing bound ones is the
      identifier, and not the OCR queue's. */
  lemma SelfAddressedIffNamed(w: World, r: Request)
    requires WellConfigured(w) && !Bound(w, r.settings.requestID)
    ensures var k, n := Applied(w, r.chain), |r.chain|;
            SelfAddressed(w, r) <==> Normalised(w, r).Some? && k < n && r.chain[n - k - 1] == r.settings.requestID
  {
    if Normalised(w, r).Some? {
      var n := Normalised(w, r).value;
      assert n.chain == r.chain && n.imgBytes.Some?;
      PipelineIsFold(w, n);
      PredictedUnroutable(w, n, r.settings.requestID);
    }
  }

  /** A status query for an identifier nobody submitted never finds anything. */
  lemma UnknownIsNotFound(w: World, steps: seq<Step>, id: string)
    requires WellConfigured(w) && Valid(w, INIT, steps) && id !in Run(w, INIT, steps).clients
    ensures PollAnswer(Run(w, INIT, steps), id) == NotFound
  {
    InvReachable(w, steps);
  }

  /** End to end: with one image source and bound preprocessors, a result in the channel of `id` or
      received from it is the engine's on p1(p2(...pn(image))), unless an engine run for it failed
      and it is the worker's error report. */
  lemma ResultIsFold(w: World, steps: seq<Step>, id: string, res: OcrResult)
    requires WellConfigured(w) && Valid(w, INIT, steps) && id in Run(w, INIT, steps).clients
    requires var c := Run(w, INIT, steps).clients[id]; res in c.chan + c.receipts
    requires var r := Run(w, INIT, steps).clients[id].submitted; OneSource(r) && AllBound(w, r.chain)
    ensures res.id == id
    ensures var c := Run(w, INIT, steps).clients[id];
            && AskedImage(w, c.submitted).Some?
            && (EngineOnFold(w, c.submitted, res) || (c.erred && IsErrorReport(c.submitted, res)))
  {
    NoCrosstalk(w, steps, id);
    NormalisedTakes(w, Run(w, INIT, steps).clients[id].submitted);
    DerivedIsFold(w, Run(w, INIT, steps).clients[id].submitted, Run(w, INIT, steps).clients[id].erred, res);
  }

  /** The engine's result on the fold of the image asked for. */
  predicate EngineOnFold(w: World, r: Request, res: OcrResult) {
    && AskedImage(w, r).Some?
    && var e := w.engine(r.settings, r.timeOut, Fold(w, r.settings, r.chain, AskedImage(w, r).value));
    res.text == e.text && res.status == e.status
  }

  lemma DerivedIsFold(w: World, r: Request, erred: bool, res: OcrResult)
    requires WellConfigured(w) && Own(w, r, erred, res) && Normalised(w, r).Some?
    requires OneSource(r) && AllBound(w, r.chain)
    ensures EngineOnFold(w, r, res) || (erred && IsErrorReport(r, res))
  {
    OneSourceReadsFold(w, r);
    WholeChainIffBound(w, Normalised(w, r).value);
  }

  /** `erred` means what it says: without failed engine runs it stays false. */
  ghost predicate EngineNeverFails(steps: seq<Step>) {
    forall k :: 0 <= k < |steps| && steps[k].OcrAnswer? ==> steps[k].run.Ran?
  }

  lemma {:induction false} NeverErred(w: World, s: State, steps: seq<Step>)
    requires Valid(w, s, steps) && EngineNeverFails(steps)
    requires forall id :: id in s.clients ==> !s.clients[id].erred
    ensures forall id :: id in Run(w, s, steps).clients ==> !Run(w, s, steps).clients[id].erred
    decreases |steps|
  {
    if steps != [] {
      assert steps[0].OcrAnswer? ==> steps[0].run.Ran?;
      NotErredStep(w, s, steps[0]);
      assert EngineNeverFails(steps[1..]) by {
        assert forall k :: 0 <= k < |steps[1..]| ==> steps[1..][k] == steps[k + 1];
      }
      NeverErred(w, Apply(w, s, steps[0]), steps[1..]);
    }
  }

  lemma NotErredStep(w: World, s: State, step: Step)
    requires Enabled(w, s, step) && (step.OcrAnswer? ==> step.run.Ran?)
    requires forall id :: id in s.clients ==> !s.clients[id].erred
    ensures forall id :: id in Apply(w, s, step).clients ==> !Apply(w, s, step).clients[id].erred
  {
    var d := ClientStep(w, s, step);
    if d.Becomes? && !step.Subscribe? {
      OnlyKnownClients(w, s, step);
      assert !d.client.erred;
    }
  }

  // ----- at most one result -----

  /** At most one result ever enters a response channel and at most one party receives it; the
      goroutine that puts it there never blocks. */
  lemma AtMostOneResult(w: World, steps: seq<Step>, id: string)
    requires WellConfigured(w) && Valid(w, INIT, steps) && id in Run(w, INIT, steps).clients
    ensures var s := Run(w, INIT, steps);
            var c := s.clients[id];
            && |c.chan| + |c.receipts| <= 1
            && (c.listening && c.callback != [] ==> Enabled(w, s, Consume(id)))
            && (!c.listening && !c.lost ==> |c.chan| + |c.receipts| == 1)
  {
    InvReachable(w, steps);
    assert GoodClient(w, id, Run(w, INIT, steps).clients[id]);
  }

  // ----- status histories -----

  /** not-found* processing* result? not-found* with the given borders. */
  predicate Split(h: seq<Answer>, i: nat, j: nat, k: nat) {
    && i <= j <= k <= |h| && k <= j + 1
    && (forall n :: 0 <= n < i ==> h[n] == NotFound)
    && (forall n :: i <= n < j ==> h[n] == Processing)
    && (forall n :: j <= n < k ==> h[n].Claimed?)
    && (forall n :: k <= n < |h| ==> h[n] == NotFound)
  }

  ghost predicate InOrder(h: seq<Answer>) {
    exists i, j, k :: Split(h, i, j, k)
  }

  lemma {:induction false} PhaseSplits(h: seq<Answer>) returns (i: nat, j: nat, k: nat)
    requires Phase(h) <= 2
    ensures Split(h, i, j, k)
    ensures Phase(h) == 0 ==> i == |h|
    ensures Phase(h) == 1 ==> j == |h|
  {
    if h == [] {
      i, j, k := 0, 0, 0;
    } else {
      var init, a := h[..|h| - 1], h[|h| - 1];
      i, j, k := PhaseSplits(init);
      match a
      case NotFound => if Phase(h) == 0 { i, j, k := |h|, |h|, |h|; }
      case Processing => j, k := |h|, |h|;
      case Claimed(_) => j, k := |h| - 1, |h|;
    }
  }

  lemma {:induction false} SplitPhase(h: seq<Answer>, i: nat, j: nat, k: nat)
    requires Split(h, i, j, k)
    ensures Phase(h) <= 2
    ensures i == |h| ==> Phase(h) == 0
    ensures j == |h| ==> Phase(h) <= 1
  {
    if h != [] {
      var n := |h| - 1;
      SplitPhase(h[..n], Least(i, n), Least(j, n), Least(k, n));
    }
  }

  function Least(a: nat, b: nat): nat { if a < b then a else b }

  /** The automaton of the invariant accepts exactly the histories of that shape. */
  lemma PhaseIffInOrder(h: seq<Answer>)
    ensures Phase(h) <= 2 <==> InOrder(h)
  {
    if Phase(h) <= 2 {
      var i, j, k := PhaseSplits(h);
    }
    if InOrder(h) {
      var i, j, k :| Split(h, i, j, k);
      SplitPhase(h, i, j, k);
    }
  }

  /** Whatever pollers, workers, postbacks and the decay do, the answers given for any
      identifier are not-found*, processing*, at most one result, not-found*. */
  lemma PollHistories(w: World, steps: seq<Step>, id: string)
    requires WellConfigured(w) && Valid(w, INIT, steps)
    ensures InOrder(History(Run(w, INIT, steps), id))
  {
    InvReachable(w, steps);
    assert HistoryInv(Run(w, INIT, steps), id);
    PhaseIffInOrder(History(Run(w, INIT, steps), id));
  }

  // ----- conservation -----

  /** Every published request is in exactly one place or has ended for exactly one recorded
      reason, redeliveries notwithstanding. An acknowledged one was answered before, and that
      answer is in the callback queue, in the response channel or with its one receiver, unless
      the client's connection broke. */
  lemma Conservation(w: World, steps: seq<Step>, id: string)
    requires WellConfigured(w) && Valid(w, INIT, steps) && id in Run(w, INIT, steps).clients
    ensures var s := Run(w, INIT, steps);
            var c := s.clients[id];
            && (HasLeft(c) ==> InFlight(s.net, id) + Endings(s.endings, id) == 1)
            && (!HasLeft(c) ==> InFlight(s.net, id) + Endings(s.endings, id) == 0)
            && (Ending(id, Acknowledged) in s.endings ==>
                  || c.lost
                  || (c.listening && exists k :: 0 <= k < |c.callback| && c.callback[k].corr == id)
                  || |c.chan| + |c.receipts| == 1)
  {
    InvReachable(w, steps);
    var s := Run(w, INIT, steps);
    assert Conserved(s, id) && GoodClient(w, id, s.clients[id]);
  }

  /** No OCR message is acknowledged before a response to it was published. */
  lemma AcknowledgedOnlyAfterAnswer(w: World, steps: seq<Step>)
    requires WellConfigured(w) && Valid(w, INIT, steps)
    ensures var s := Run(w, INIT, steps);
            forall k :: 0 <= k < |s.endings| && s.endings[k].reason == Acknowledged ==> s.endings[k].corr in s.answered
  {
    InvReachable(w, steps);
  }

  // ----- the table -----

  /** In every state, the counter and the gauge agree with the table; and the table holds exactly
      the requests that a goroutine still serves and no status query has claimed. */
  lemma TableAgreement(w: World, steps: seq<Step>)
    requires WellConfigured(w) && Valid(w, INIT, steps)
    ensures var s := Run(w, INIT, steps);
            && s.table.length == Wrap32(|s.table.track|)
            && s.table.gauge == |s.table.track|
            && forall id :: id in s.table.track <==>
                 id in s.clients && Served(s.clients[id]) && !WasClaimed(History(s, id))
  {
    InvReachable(w, steps);
    var s := Run(w, INIT, steps);
    forall id | id in s.table.track
      ensures !WasClaimed(History(s, id))
    {
      assert HistoryInv(s, id);
      EarlyPhaseUnclaimed(History(s, id));
    }
  }

  /** A finished postback posted one result, the received one, between once and max(1,
      numRetries) times, or one error report after giving up; and its entry is untracked. */
  lemma PostbackOutcome(w: World, steps: seq<Step>, id: string)
    requires WellConfigured(w) && Valid(w, INIT, steps) && AtStage(Run(w, INIT, steps), id, Finished)
    requires var r := Run(w, INIT, steps).clients[id].submitted; r.deferred && r.replyTo != ""
    ensures var s := Run(w, INIT, steps);
            var c := s.clients[id];
            && id !in s.table.track && PostedWell(w, id, c)
            && (c.receipts == [] ==> c.posts == [OcrResult("", "error", id)])
            && (c.posts != [OcrResult("", "error", id)] ==>
                  && |c.receipts| == 1 && 1 <= |c.posts| <= (if w.numRetries == 0 then 1 else w.numRetries)
                  && forall k :: 0 <= k < |c.posts| ==> c.posts[k] == c.receipts[0])
  {
    InvReachable(w, steps);
    assert GoodClient(w, id, Run(w, INIT, steps).clients[id]);
  }

  /** What a status query says: not found without an entry, processing while the channel is empty,
      and otherwise the result at its head. */
  lemma PollAnswers(w: World, steps: seq<Step>, id: string)
    requires WellConfigured(w) && Valid(w, INIT, steps)
    ensures var s := Run(w, INIT, steps);
            && (id !in s.table.track ==> PollAnswer(s, id) == NotFound)
            && (id in s.table.track ==>
                  && id in s.clients
                  && PollAnswer(s, id) == if s.clients[id].chan == [] then Processing
                                          else Claimed(s.clients[id].chan[0]))
  {
    InvReachable(w, steps);
  }
}
