/** The RPC client: accepting and publishing a request, the response goroutine, the postback
    goroutine with its retries and the decay goroutine of unclaimed requests. */
module OcrRpcClients {
  import opened OcrTypes
  import opened OcrRequests
  import opened ResultsStorage
  import opened Lifecycle
  import opened Workers

  /** Outcomes of the broker and network calls that `DecodeImage` makes, in order. */
  datatype Calls = Calls(dial: bool, channel: bool, exchange: bool, subscribe: bool, download: bool, publish: bool)

  /** A goroutine left running, or the response the caller waited for (`None`: it timed out). */
  datatype Left = Nothing | Decays | PostsBack | Waited(response: Option<OcrResult>)

  /** `failed` is a non-nil Go error. */
  datatype Reply = Reply(result: OcrResult, httpStatus: nat, failed: bool)

  predicate BrokerReady(k: Calls) { k.dial && k.channel && k.exchange && k.subscribe }

  /** The image could be taken from the request: only an actual download can fail by the network. */
  predicate ImageReady(w: World, r: Request, k: Calls) {
    Normalised(w, r).Some? && (r.imgBytes.None? && r.imgBase64 == "" ==> k.download)
  }

  /** What the caller gets, what stays running, what was published and whether it is tracked. */
  datatype Decoded = Decoded(reply: Reply, left: Left, sent: Option<Publication>, tracked: bool)

  function Refusal(result: OcrResult, status: nat, failed: bool): Decoded {
    Decoded(Reply(result, status, failed), Nothing, None, false)
  }

  function DecodeOutcome(w: World, request: Request, k: Calls, response: Option<OcrResult>): Decoded {
    var p := Prepared(w, request);
    if p.None? then Refusal(NO_RESULT, 400, true)
    else BrokerOutcome(w, p.value, k, response)
  }

  /** From the prepared request. */
  function BrokerOutcome(w: World, r: Request, k: Calls, response: Option<OcrResult>): Decoded {
    if !k.dial then
      Refusal(OcrResult("Internal Server Error: message broker is not reachable", "error", ""), 500, true)
    else if !BrokerReady(k) then Refusal(NO_RESULT, 500, true)
    else SendOutcome(w, r, k, response)
  }

  /** Once the broker is ready. */
  function SendOutcome(w: World, r: Request, k: Calls, response: Option<OcrResult>): Decoded {
    if !ImageReady(w, r, k) then Refusal(NO_RESULT, 500, true)
    else if !k.publish then Refusal(NO_RESULT, 500, false)
    else SentOutcome(w, Normalised(w, r).value, response)
  }

  /** After publishing. */
  function SentOutcome(w: World, r: Request, response: Option<OcrResult>): Decoded {
    var id := r.settings.requestID;
    var sent := Some(Publication(NextKey(w, r.chain), FirstMessage(w, id, r)));
    if r.deferred then
      Decoded(Reply(OcrResult("", "processing", id), 200, false),
              if r.replyTo == "" then Decays else PostsBack, sent, true)
    else
      Decoded(if response.Some? then Reply(response.value, 200, false) else Reply(NO_RESULT, 500, true),
              Waited(response), sent, false)
  }

  /** A request goes out exactly if its reply address, the broker and its image are fine, and is
      tracked exactly if it went out and is deferred, be it by its reply address alone. */
  lemma DecodeMeaning(w: World, r: Request, k: Calls, response: Option<OcrResult>)
    ensures var d := DecodeOutcome(w, r, k, response);
            && (d.sent.Some? <==>
                  && (r.replyTo == "" || w.replyUrl(r.replyTo).Some?) && BrokerReady(k) && k.publish
                  && (r.imgBytes.Some? || (if r.imgBase64 != "" then w.base64(r.imgBase64).Some? else k.download)))
            && (d.tracked <==> d.sent.Some? && (r.deferred || r.replyTo != ""))
            && (d.sent.Some? ==> d.sent.value.msg.corr == d.sent.value.msg.replyTo == r.settings.requestID)
  {
    SentOrRefused(w, r, k, response);
    var p := Prepared(w, r);
    if p.Some? {
      BrokerSends(w, p.value, k, response);
      assert p.value.imgBytes == r.imgBytes && p.value.imgBase64 == r.imgBase64;
    }
  }

  lemma BrokerSends(w: World, r: Request, k: Calls, response: Option<OcrResult>)
    ensures BrokerOutcome(w, r, k, response).sent.Some? <==> BrokerReady(k) && ImageReady(w, r, k) && k.publish
    ensures var d := BrokerOutcome(w, r, k, response);
            d.sent.None? ==>
              && d.reply.httpStatus == 500
              && (!d.reply.failed <==> BrokerReady(k) && ImageReady(w, r, k) && !k.publish)
              && d.reply.result ==
                 if !k.dial then OcrResult("Internal Server Error: message broker is not reachable", "error", "")
                 else OcrResult("", "", "")
  {
  }

  /** What goes out is the request as it was submitted, addressed by its identifier: with the image
      asked for, by bytes, text or URL, without the last name of its chain, which is the key, and
      with the deferred mode and the timeout settled. */
  lemma PublishedIsAsked(w: World, r: Request, k: Calls, response: Option<OcrResult>)
    requires DecodeOutcome(w, r, k, response).sent.Some?
    ensures var p := DecodeOutcome(w, r, k, response).sent.value;
            var b := p.msg.body;
            && p.msg.corr == r.settings.requestID && p.msg.replyTo == r.settings.requestID
            && b.imgBytes == (if r.imgBytes.Some? then r.imgBytes
                              else if r.imgBase64 != "" then w.base64(r.imgBase64)
                              else Some(w.download(r.imgUrl)))
            && b.imgBytes.Some?
            && b.imgBase64 == (if r.imgBytes.Some? then r.imgBase64 else "")
            && b.imgUrl == (if r.imgBytes.None? && r.imgBase64 == "" then "" else r.imgUrl)
            && (if r.chain == [] then p.key == w.ocrKey && b.chain == [] else b.chain + [p.key] == r.chain)
            && b.settings == r.settings && b.deferred == (r.deferred || r.replyTo != "")
            && (if r.replyTo == "" then b.replyTo == "" else w.replyUrl(r.replyTo) == Some(b.replyTo))
            && b.timeOut == (if 0 < r.timeOut < w.maxTimeout then r.timeOut else w.defaultTimeout)
  {
    SentOrRefused(w, r, k, response);
    var q := Prepared(w, r).value;
    NormalisedTakes(w, q);
    SentIsNormalised(w, Normalised(w, q).value, response);
  }

  lemma SentIsNormalised(w: World, n: Request, response: Option<OcrResult>)
    ensures var p := SentOutcome(w, n, response).sent.value;
            && p.msg.corr == n.settings.requestID && p.msg.replyTo == n.settings.requestID
            && p.msg.body == n.(chain := p.msg.body.chain)
            && if n.chain == [] then p.key == w.ocrKey && p.msg.body.chain == []
               else p.msg.body.chain + [p.key] == n.chain
  {
  }

  /** Which goroutine stays behind: a postback for a usable reply address, the decay for other
      tracked requests, and the caller itself waits otherwise. Tracked requests are answered
      with their identifier at once. */
  lemma LeftMeaning(w: World, r: Request, k: Calls, response: Option<OcrResult>)
    ensures var d := DecodeOutcome(w, r, k, response);
            && (d.left.PostsBack? <==> d.tracked && r.replyTo != "" && w.replyUrl(r.replyTo) != Some(""))
            && (d.left.Decays? || d.left.PostsBack? <==> d.tracked)
            && (d.left.Waited? <==> d.sent.Some? && !d.tracked)
            && (d.tracked ==> d.reply == Reply(OcrResult("", "processing", r.settings.requestID), 200, false))
            && (d.left.Waited? ==>
                  d.reply == if response.Some? then Reply(response.value, 200, false)
                             else Reply(OcrResult("", "", ""), 500, true))
  {
    SentOrRefused(w, r, k, response);
  }

  lemma SentOrRefused(w: World, r: Request, k: Calls, response: Option<OcrResult>)
    ensures var d := DecodeOutcome(w, r, k, response);
            if d.sent.Some? then
              && Prepared(w, r).Some? && Normalised(w, Prepared(w, r).value).Some?
              && d == SentOutcome(w, Normalised(w, Prepared(w, r).value).value, response)
            else d.left == Nothing && !d.tracked && d.reply.httpStatus in {400, 500}
  {
    if Prepared(w, r).Some? { BrokerSentOrRefused(w, Prepared(w, r).value, k, response); }
  }

  lemma BrokerSentOrRefused(w: World, r: Request, k: Calls, response: Option<OcrResult>)
    ensures var d := BrokerOutcome(w, r, k, response);
            if d.sent.Some? then Normalised(w, r).Some? && d == SentOutcome(w, Normalised(w, r).value, response)
            else d.left == Nothing && !d.tracked && d.reply.httpStatus == 500
  {
  }

  /** A request that does not go out is refused with an error, except for exactly those that
      only the publishing itself held back: they get status 500 and no error. */
  lemma RefusalMeaning(w: World, r: Request, k: Calls, response: Option<OcrResult>)
    ensures var d := DecodeOutcome(w, r, k, response);
            d.sent.None? ==>
              && d.reply.httpStatus in {400, 500} && d.left == Nothing
              && (!d.reply.failed <==> DecodeOutcome(w, r, k.(publish := true), response).sent.Some?)
              && (d.reply.httpStatus == 400 <==> r.replyTo != "" && w.replyUrl(r.replyTo).None?)
              && d.reply.result ==
                 if d.reply.httpStatus != 400 && !k.dial then
                   OcrResult("Internal Server Error: message broker is not reachable", "error", "")
                 else OcrResult("", "", "")
  {
    SentOrRefused(w, r, k, response);
    var p := Prepared(w, r);
    if p.Some? {
      BrokerSends(w, p.value, k, response);
      BrokerSends(w, p.value, k.(publish := true), response);
    }
  }

  class OcrRpcClient {
    var published: seq<Publication>

    constructor ()
      ensures published == []
    {
      published := [];
    }

    method DecodeImage(w: World, req: OcrRequest, storage: Storage, k: Calls, response: Option<OcrResult>)
      returns (reply: Reply, left: Left, chan: Channel?)
      modifies this, req, storage
      ensures var d := DecodeOutcome(w, old(req.Value()), k, response);
              var id := old(req.settings.requestID);
              && reply == d.reply && left == d.left
              && published == old(published) + (if d.sent.Some? then [d.sent.value] else [])
              && (if d.tracked then
                    && chan != null && storage.Value() == Added(old(storage.Value()), id)
                    && storage.requestsTrack == old(storage.requestsTrack)[id := chan]
                  else unchanged(storage))
              && (d.sent.Some? <==> chan != null)
              && (chan != null ==> fresh(chan) && chan.buffer == [] && chan.capacity == w.capacity)
    {
      left, chan := Nothing, null;
      var ok := Accept(w, req);
      if !ok {
        reply := Reply(NO_RESULT, 400, true);
        return;
      }
      reply, left, chan := Connect(w, req, storage, k, response);
    }

    /** Dialling, opening the channel, declaring the exchange and subscribing to the callback queue. */
    method Connect(w: World, req: OcrRequest, storage: Storage, k: Calls, response: Option<OcrResult>)
      returns (reply: Reply, left: Left, chan: Channel?)
      modifies this, req`imgBytes, req`imgBase64, req`imgUrl, req`preprocessorChain, storage
      ensures var d := BrokerOutcome(w, old(req.Value()), k, response);
              var id := req.settings.requestID;
              && reply == d.reply && left == d.left
              && published == old(published) + (if d.sent.Some? then [d.sent.value] else [])
              && (if d.tracked then
                    && chan != null && storage.Value() == Added(old(storage.Value()), id)
                    && storage.requestsTrack == old(storage.requestsTrack)[id := chan]
                  else unchanged(storage))
              && (d.sent.Some? <==> chan != null)
              && (chan != null ==> fresh(chan) && chan.buffer == [] && chan.capacity == w.capacity)
    {
      left, chan := Nothing, null;
      if !k.dial {
        reply := Reply(OcrResult("Internal Server Error: message broker is not reachable", "error", ""), 500, true);
        return;
      }
      if !k.channel || !k.exchange || !k.subscribe {
        reply := Reply(NO_RESULT, 500, true);
        return;
      }
      reply, left, chan := Send(w, req, storage, k, response);
    }

    method Send(w: World, req: OcrRequest, storage: Storage, k: Calls, response: Option<OcrResult>)
      returns (reply: Reply, left: Left, chan: Channel?)
      modifies this, req`imgBytes, req`imgBase64, req`imgUrl, req`preprocessorChain, storage
      ensures var d := SendOutcome(w, old(req.Value()), k, response);
              var id := req.settings.requestID;
              && reply == d.reply && left == d.left
              && published == old(published) + (if d.sent.Some? then [d.sent.value] else [])
              && (if d.tracked then
                    && chan != null && storage.Value() == Added(old(storage.Value()), id)
                    && storage.requestsTrack == old(storage.requestsTrack)[id := chan]
                  else unchanged(storage))
              && (d.sent.Some? <==> chan != null)
              && (chan != null ==> fresh(chan) && chan.buffer == [] && chan.capacity == w.capacity)
    {
      left, chan := Nothing, null;
      var rpcResponseChan := new Channel(w.capacity);
      var ok := TakeImage(w, req, k.download);
      if !ok {
        reply := Reply(NO_RESULT, 500, true);
        return;
      }
      if !k.publish {
        reply := Reply(NO_RESULT, 500, false);
        return;
      }
      chan := rpcResponseChan;
      reply, left := PublishAndAwait(w, req, storage, chan, response);
    }

    /** The successful path, from the normalised request. */
    method PublishAndAwait(w: World, req: OcrRequest, storage: Storage, chan: Channel, response: Option<OcrResult>)
      returns (reply: Reply, left: Left)
      modifies this, req`preprocessorChain, storage
      ensures var d := SentOutcome(w, old(req.Value()), response);
              && reply == d.reply && left == d.left && published == old(published) + [d.sent.value]
              && if d.tracked then
                   && storage.Value() == Added(old(storage.Value()), req.settings.requestID)
                   && storage.requestsTrack == old(storage.requestsTrack)[req.settings.requestID := chan]
                 else unchanged(storage)
    {
      Publish(w, req);
      reply, left := Await(req, storage, chan, response);
    }

    /** The reply address is checked and forces the deferred mode; the timeout is clamped. */
    method Accept(w: World, req: OcrRequest) returns (ok: bool)
      modifies req`replyTo, req`deferred, req`timeOut
      ensures ok == Prepared(w, old(req.Value())).Some?
      ensures req.Value() == if ok then Prepared(w, old(req.Value())).value else old(req.Value())
    {
      if req.replyTo != "" {
        var validUrl := w.replyUrl(req.replyTo);
        if validUrl.None? {
          return false;
        }
        req.replyTo := validUrl.value;
        req.deferred := true;
      }
      if req.timeOut >= w.maxTimeout || req.timeOut == 0 {
        req.timeOut := w.defaultTimeout;
      }
      ok := true;
    }

    method Publish(w: World, req: OcrRequest)
      modifies this, req`preprocessorChain
      ensures var r := old(req.Value());
              published == old(published) + [Publication(NextKey(w, r.chain), FirstMessage(w, r.settings.requestID, r))]
      ensures req.Value() == old(req.Value()).(chain := Popped(old(req.preprocessorChain)))
    {
      var correlationID := req.settings.requestID;
      var routingKey := req.NextPreprocessor(w);
      published := published + [Publication(routingKey, Message(correlationID, correlationID, req.Value()))];
    }

    method Await(req: OcrRequest, storage: Storage, chan: Channel, response: Option<OcrResult>)
      returns (reply: Reply, left: Left)
      modifies storage
      ensures var id := req.settings.requestID;
              if req.deferred then
                && reply == Reply(OcrResult("", "processing", id), 200, false)
                && left == (if req.replyTo == "" then Decays else PostsBack)
                && storage.Value() == Added(old(storage.Value()), id)
                && storage.requestsTrack == old(storage.requestsTrack)[id := chan]
              else
                && left == Waited(response) && unchanged(storage)
                && reply == if response.Some? then Reply(response.value, 200, false) else Reply(NO_RESULT, 500, true)
    {
      if req.deferred {
        storage.AddNewOcrResultToQueue(req.settings.requestID, chan);
        left := if req.replyTo == "" then Decays else PostsBack;
        reply := Reply(OcrResult("", "processing", req.settings.requestID), 200, false);
      } else {
        left := Waited(response);
        reply := if response.Some? then Reply(response.value, 200, false) else Reply(NO_RESULT, 500, true);
      }
    }

    /** Bytes win, then base64 text, then a download. */
    method TakeImage(w: World, req: OcrRequest, reachable: bool) returns (ok: bool)
      modifies req`imgBytes, req`imgBase64, req`imgUrl
      ensures ok == ImageReady(w, old(req.Value()), Calls(true, true, true, true, reachable, true))
      ensures ok ==> req.Value() == Normalised(w, old(req.Value())).value
    {
      ok := true;
      if req.imgBytes == None {
        if req.imgBase64 != "" {
          ok := req.DecodeBase64(w);
        } else {
          ok := req.DownloadImgUrl(w, reachable);
        }
      }
    }
  }

  /** What `DecodeImage` does after subscribing is the protocol's: it publishes if and only if the
      publishing step is enabled and no call fails, its publication is that step's, and it then
      tracks the request if and only if the tracking step is enabled. */
  lemma ClientPublishIsStep(w: World, s: State, request: Request, k: Calls, response: Option<OcrResult>)
    requires Prepared(w, request).Some? && BrokerReady(k)
    requires AtStage(s, request.settings.requestID, Subscribed)
    requires s.clients[request.settings.requestID].submitted == Prepared(w, request).value
    ensures var d := DecodeOutcome(w, request, k, response);
            var id, r := request.settings.requestID, Prepared(w, request).value;
            var publish := Lifecycle.Step.Publish(id);
            && (d.sent.Some? <==>
                  Enabled(w, s, publish) && k.publish && (r.imgBytes.None? && r.imgBase64 == "" ==> k.download))
            && (d.sent.Some? ==>
                  && NetStep(w, s, publish) == Routed(w, s, d.sent.value.key, d.sent.value.msg)
                  && (d.tracked <==> Enabled(w, Apply(w, s, publish), Track(id))))
  {
  }

  // ----- the response goroutine -----

  /** The first delivery with the right correlation ID, with the identifier filled in. */
  function FirstMatch(ds: seq<Delivery>, id: string): Option<OcrResult> {
    if ds == [] then None
    else if ds[0].corr == id then Some(ds[0].result.(id := id))
    else FirstMatch(ds[1..], id)
  }

  method HandleRPCResponse(ds: seq<Delivery>, id: string, chan: Channel)
    requires |chan.buffer| < chan.capacity
    modifies chan
    ensures var m := FirstMatch(ds, id);
            chan.buffer == old(chan.buffer) + if m.Some? then [m.value] else []
    ensures |chan.buffer| <= chan.capacity
  {
    var i := 0;
    while i < |ds|
      invariant 0 <= i <= |ds|
      invariant FirstMatch(ds[i..], id) == FirstMatch(ds, id)
      invariant chan.buffer == old(chan.buffer)
    {
      var d := ds[i];
      assert ds[i..][1..] == ds[i + 1..];
      if d.corr == id {
        var ocrResult := d.result;
        ocrResult := ocrResult.(id := id);
        chan.buffer := chan.buffer + [ocrResult];
        return;
      }
      i := i + 1;
    }
  }

  lemma {:induction false} FirstMatchIsFirst(ds: seq<Delivery>, id: string) returns (k: nat)
    ensures k <= |ds| && forall j :: 0 <= j < k ==> ds[j].corr != id
    ensures k < |ds| ==> ds[k].corr == id && FirstMatch(ds, id) == Some(ds[k].result.(id := id))
    ensures k == |ds| ==> FirstMatch(ds, id) == None
  {
    if ds == [] || ds[0].corr == id {
      k := 0;
    } else {
      k := FirstMatchIsFirst(ds[1..], id);
      assert forall j :: 1 <= j <= k ==> ds[j] == ds[1..][j - 1];
      k := k + 1;
    }
  }

  /** All rounds of the goroutine, in the protocol's steps. */
  function ConsumeAll(id: string, c: Client): Client
    decreases |c.callback|
  {
    if !c.listening || c.callback == [] then c else ConsumeAll(id, Consumed(id, c))
  }

  /** The protocol's `Consume` steps do to a client what the goroutine does to its channel,
      and the loop ends at the first match, with the remaining deliveries discarded. */
  lemma {:induction false} ConsumeRefines(id: string, c: Client)
    requires c.listening
    ensures var m, c' := FirstMatch(c.callback, id), ConsumeAll(id, c);
            && c'.chan == c.chan + (if m.Some? then [m.value] else [])
            && c'.listening == m.None?
            && c'.callback == []
    decreases |c.callback|
  {
    if c.callback != [] && c.callback[0].corr != id {
      ConsumeRefines(id, Consumed(id, c));
    }
  }

  // ----- the postback goroutine -----

  datatype Post = Post(result: OcrResult, attempt: nat)

  /** The result is posted until a post reaches its target or the retries are used up; after a
      timeout, one error report is posted. */
  ghost predicate PostsAsSpecified(w: World, id: string, arrived: Option<OcrResult>, delivered: nat -> bool,
                                   posts: seq<Post>) {
    && (forall n :: 0 <= n < |posts| ==> posts[n].attempt == n + 1)
    && (arrived.None? ==> posts == [Post(OcrResult("", "error", id), 1)])
    && (arrived.Some? ==>
          && 1 <= |posts| <= (if w.numRetries == 0 then 1 else w.numRetries)
          && (forall n :: 0 <= n < |posts| ==> posts[n].result == arrived.value)
          && (forall n :: 1 <= n < |posts| ==> !delivered(n))
          && (delivered(|posts|) || |posts| == if w.numRetries == 0 then 1 else w.numRetries))
  }

  /** `arrived` is what the channel yields before the timeout, `delivered(n)` tells whether
      the n-th post reaches its target. */
  method PostBack(w: World, id: string, arrived: Option<OcrResult>, delivered: nat -> bool, storage: Storage)
    returns (posts: seq<Post>)
    modifies storage
    ensures id !in storage.requestsTrack && storage.Value() == Deleted(old(storage.Value()), id)
    ensures PostsAsSpecified(w, id, arrived, delivered, posts)
  {
    posts := [];
    var ocrRes := OcrResult("", "error", id);
    var tryCounter := 1;
    match arrived {
      case Some(ocrResult) =>
        ocrRes := ocrResult;
        var again, done := true, false;
        while again && !done
          invariant 1 <= tryCounter <= Attempts(w) + 1
          invariant again ==> tryCounter <= Attempts(w)
          invariant |posts| == if done then tryCounter else tryCounter - 1
          invariant done ==> tryCounter <= Attempts(w) && delivered(tryCounter)
          invariant !again && !done ==> tryCounter > Attempts(w)
          invariant forall n :: 0 <= n < |posts| ==> posts[n] == Post(ocrResult, n + 1)
          invariant forall n :: 1 <= n < tryCounter ==> !delivered(n)
          decreases Attempts(w) + 1 - tryCounter, !done
        {
          posts := posts + [Post(ocrRes, tryCounter)];
          if !delivered(tryCounter) {
            tryCounter := tryCounter + 1;
            again := tryCounter <= w.numRetries;
          } else {
            done := true;
          }
        }
      case None =>
        posts := [Post(ocrRes, tryCounter)];
    }
    storage.DeleteRequestFromQueue(id);
  }

  // ----- both goroutines as runs of the protocol -----

  /** The results posted, in order. */
  function Results(posts: seq<Post>): seq<OcrResult> {
    seq(|posts|, i requires 0 <= i < |posts| => posts[i].result)
  }

  /** Posts from the `n`-th on. */
  function AttemptSteps(id: string, delivered: nat -> bool, n: nat, last: nat): seq<Step>
    requires n <= last + 1
    decreases last + 1 - n
  {
    if n > last then [PostDelete(id)] else [PostAttempt(id, delivered(n))] + AttemptSteps(id, delivered, n + 1, last)
  }

  /** The goroutine's steps, given what arrived and how many posts were made. */
  function PostBackSteps(id: string, arrived: Option<OcrResult>, delivered: nat -> bool, last: nat): seq<Step> {
    if arrived.None? then [PostTimeout(id)] + [PostDelete(id)]
    else [PostReceive(id)] + AttemptSteps(id, delivered, 1, last)
  }

  /** The client at the end of its goroutine. */
  function Settled(s: State, id: string, c: Client): State {
    s.(clients := s.clients[id := c.(stage := Finished)], table := Deleted(s.table, id))
  }

  function WithClient(s: State, id: string, c: Client): State { s.(clients := s.clients[id := c]) }

  lemma AttemptStep(w: World, s: State, id: string, ok: bool)
    requires id in s.clients && s.clients[id].stage.Posting?
    ensures Enabled(w, s, PostAttempt(id, ok))
    ensures Apply(w, s, PostAttempt(id, ok)) == WithClient(s, id, PostTried(w, s.clients[id], ok))
  {
  }

  lemma ReceiveStep(w: World, s: State, id: string)
    requires AtStage(s, id, Awaiting) && s.clients[id].chan != []
    ensures var c := Received(s.clients[id]).(stage := Posting(s.clients[id].chan[0], 1));
            Enabled(w, s, PostReceive(id)) && Apply(w, s, PostReceive(id)) == WithClient(s, id, c)
  {
  }

  lemma TimeoutStep(w: World, s: State, id: string)
    requires AtStage(s, id, Awaiting)
    ensures var c := s.clients[id];
            && Enabled(w, s, PostTimeout(id))
            && Apply(w, s, PostTimeout(id)) ==
               WithClient(s, id, c.(posts := c.posts + [TimeoutResult(id)], stage := Deleting))
  {
  }

  lemma DeletesAtEnd(w: World, s: State, id: string)
    requires AtStage(s, id, Deleting)
    ensures Valid(w, s, [PostDelete(id)]) && Run(w, s, [PostDelete(id)]) == Settled(s, id, s.clients[id])
  {
    RunCons(w, s, PostDelete(id), []);
    assert Apply(w, s, PostDelete(id)) == Settled(s, id, s.clients[id]);
  }

  /** Settling forgets which client was there before. */
  lemma SettledAgain(s: State, id: string, c: Client, d: Client)
    requires id in s.clients
    ensures Settled(WithClient(s, id, c), id, d) == Settled(s, id, d)
  {
    assert s.clients[id := c][id := d.(stage := Finished)] == s.clients[id := d.(stage := Finished)];
  }

  lemma TriedStage(w: World, id: string, c: Client, res: OcrResult, delivered: nat -> bool, n: nat, posts: seq<Post>)
    requires PostsAsSpecified(w, id, Some(res), delivered, posts) && 1 <= n <= |posts| && c.stage == Posting(res, n)
    ensures var c1 := PostTried(w, c, delivered(n));
            && c1 == c.(posts := c.posts + [res], stage := c1.stage)
            && c1.stage == (if n == |posts| then Deleting else Posting(res, n + 1))
            && c1.(posts := c1.posts + Results(posts)[n..], stage := Finished)
               == c.(posts := c.posts + Results(posts)[n - 1..], stage := Finished)
            && (n == |posts| ==> c1.posts + Results(posts)[n..] == c1.posts)
  {
    assert Results(posts)[n - 1..] == [res] + Results(posts)[n..];
    assert c.posts + [res] + Results(posts)[n..] == c.posts + ([res] + Results(posts)[n..]);
  }

  lemma {:induction false} AttemptsRun(w: World, s: State, id: string, res: OcrResult, delivered: nat -> bool, n: nat,
                                       posts: seq<Post>)
    requires PostsAsSpecified(w, id, Some(res), delivered, posts) && 1 <= n <= |posts|
    requires AtStage(s, id, Posting(res, n))
    ensures var steps := AttemptSteps(id, delivered, n, |posts|);
            var c := s.clients[id];
            && Valid(w, s, steps)
            && Run(w, s, steps) == Settled(s, id, c.(posts := c.posts + Results(posts)[n - 1..]))
    decreases |posts| - n
  {
    var c, c1 := s.clients[id], PostTried(w, s.clients[id], delivered(n));
    var s1 := WithClient(s, id, c1);
    AttemptStep(w, s, id, delivered(n));
    TriedStage(w, id, c, res, delivered, n, posts);
    if n == |posts| {
      DeletesAtEnd(w, s1, id);
      SettledAgain(s, id, c1, c1);
    } else {
      AttemptsRun(w, s1, id, res, delivered, n + 1, posts);
      SettledAgain(s, id, c1, c1.(posts := c1.posts + Results(posts)[n..]));
    }
    RunCons(w, s, PostAttempt(id, delivered(n)), AttemptSteps(id, delivered, n + 1, |posts|));
  }

  /** Whatever `PostBack` does is a run of the protocol's postback steps: it receives or times out,
      makes exactly these posts and removes the entry. */
  lemma PostBackIsRun(w: World, s: State, id: string, arrived: Option<OcrResult>, delivered: nat -> bool,
                      posts: seq<Post>)
    requires AtStage(s, id, Awaiting) && PostsAsSpecified(w, id, arrived, delivered, posts)
    requires arrived.Some? ==> s.clients[id].chan != [] && s.clients[id].chan[0] == arrived.value
    ensures var steps := PostBackSteps(id, arrived, delivered, |posts|);
            var c := if arrived.Some? then Received(s.clients[id]) else s.clients[id];
            && Valid(w, s, steps)
            && Run(w, s, steps) == Settled(s, id, c.(posts := c.posts + Results(posts)))
  {
    if arrived.Some? { ReceivedRun(w, s, id, delivered, posts); } else { TimedOutRun(w, s, id, delivered, posts); }
  }

  lemma ReceivedRun(w: World, s: State, id: string, delivered: nat -> bool, posts: seq<Post>)
    requires AtStage(s, id, Awaiting) && s.clients[id].chan != []
    requires PostsAsSpecified(w, id, Some(s.clients[id].chan[0]), delivered, posts)
    ensures var steps := [PostReceive(id)] + AttemptSteps(id, delivered, 1, |posts|);
            var c := Received(s.clients[id]);
            Valid(w, s, steps) && Run(w, s, steps) == Settled(s, id, c.(posts := c.posts + Results(posts)))
  {
    var res := s.clients[id].chan[0];
    var c1 := Received(s.clients[id]).(stage := Posting(res, 1));
    ReceiveStep(w, s, id);
    AttemptsRun(w, WithClient(s, id, c1), id, res, delivered, 1, posts);
    assert Results(posts)[0..] == Results(posts);
    SettledAgain(s, id, c1, c1.(posts := c1.posts + Results(posts)));
    RunCons(w, s, PostReceive(id), AttemptSteps(id, delivered, 1, |posts|));
  }

  lemma TimedOutRun(w: World, s: State, id: string, delivered: nat -> bool, posts: seq<Post>)
    requires AtStage(s, id, Awaiting) && PostsAsSpecified(w, id, None, delivered, posts)
    ensures var steps := [PostTimeout(id)] + [PostDelete(id)];
            var c := s.clients[id];
            Valid(w, s, steps) && Run(w, s, steps) == Settled(s, id, c.(posts := c.posts + Results(posts)))
  {
    var c := s.clients[id];
    var c1 := c.(posts := c.posts + [TimeoutResult(id)], stage := Deleting);
    TimeoutStep(w, s, id);
    DeletesAtEnd(w, WithClient(s, id, c1), id);
    assert Results(posts) == [TimeoutResult(id)];
    SettledAgain(s, id, c1, c1);
    RunCons(w, s, PostTimeout(id), [PostDelete(id)]);
  }

  /** Likewise the decay goroutine, whose step comes after the claim if there is one: on both ways
      the entry is removed once, as `Decay` says of the table. */
  lemma DecayIsRun(w: World, s: State, id: string, claimed: bool)
    requires AtStage(s, id, Decaying) && (claimed ==> PollAnswer(s, id).Claimed?)
    ensures var steps := (if claimed then [Poll(id)] else []) + [Lifecycle.Step.Decay(id)];
            && Valid(w, s, steps)
            && Run(w, s, steps).table == Deleted(s.table, id) && AtStage(Run(w, s, steps), id, Finished)
            && Run(w, s, steps).clients[id].receipts ==
               s.clients[id].receipts + if claimed then [s.clients[id].chan[0]] else []
  {
    var decay := Lifecycle.Step.Decay(id);
    var s1 := if claimed then Apply(w, s, Poll(id)) else s;
    RunCons(w, s1, decay, []);
    if claimed { RunCons(w, s, Poll(id), [decay]); }
    assert (if claimed then [Poll(id)] else []) + [decay] == if claimed then [Poll(id)] + [decay] else [decay];
  }

  // ----- the decay goroutine -----

  /** A 64-bit duration in nanoseconds. */
  function Signed64(x: int): int {
    var m := x % 0x1_0000_0000_0000_0000;
    if m < 0x8000_0000_0000_0000 then m else m - 0x1_0000_0000_0000_0000
  }

  const NANOS := 1_000_000_000

  /** The duration given to the timer: ten seconds are added to an unsigned 64-bit number of
      seconds, and the product with the nanoseconds of a second wraps. */
  function TimerLength(timeOut: nat): int {
    Signed64((timeOut + 10) % 0x1_0000_0000_0000_0000 * NANOS)
  }

  /** The first whole second at which the timer has fired; a negative one fires at once. */
  function Due(timeOut: nat): nat {
    if TimerLength(timeOut) <= 0 then 0 else (TimerLength(timeOut) + NANOS - 1) / NANOS
  }

  /** The timer fires after the intended `timeOut + 10` seconds if and only if that fits into a
      duration; a larger timeout fires at some other time. */
  lemma TimerIsExact(timeOut: nat)
    requires timeOut < 0x1_0000_0000_0000_0000
    ensures Due(timeOut) == timeOut + 10 <==> timeOut + 10 <= 9_223_372_036
  {
    var t := (timeOut + 10) % 0x1_0000_0000_0000_0000;
    if timeOut + 10 <= 9_223_372_036 {
      assert TimerLength(timeOut) == (timeOut + 10) * NANOS;
    } else {
      assert TimerLength(timeOut) < 0x8000_0000_0000_0000;
      assert Due(timeOut) <= 9_223_372_037;
      if timeOut + 10 == 9_223_372_037 { assert TimerLength(timeOut) < 0; }
    }
  }

  /** The goroutine looks every five seconds; its first look at or after second `t`. */
  function FirstWake(t: nat): nat { (t + 4) / 5 * 5 }

  /** In whole seconds, given at which second (if any) somebody else claims the request. The
      timer fires once; the loop ends when it sees the entry gone, or removes it itself. An
      unclaimed entry is gone before second `timeOut + 15`, as long as the timer can be set. */
  method Decay(id: string, timeOut: nat, claim: Option<nat>, storage: Storage) returns (end: nat, decayed: bool)
    requires id in storage.requestsTrack
    modifies storage
    ensures storage.Value() == Deleted(old(storage.Value()), id) && id !in storage.requestsTrack
    ensures decayed <==> claim.None? || claim.value > FirstWake(Due(timeOut))
    ensures decayed ==> end == FirstWake(Due(timeOut)) && end % 5 == 0
    ensures decayed && timeOut + 10 <= 9_223_372_036 ==> timeOut + 10 <= end < timeOut + 15
    ensures !decayed ==> claim.value <= end < claim.value + 10
  {
    var now, timer, due := 0, true, Due(timeOut);
    ghost var deadline := FirstWake(due);
    if timeOut + 10 <= 9_223_372_036 { TimerIsExact(timeOut); }
    decayed := false;
    if claim == Some(0) {
      storage.DeleteRequestFromQueue(id);
    }
    while true
      invariant now % 5 == 0
      invariant id in storage.requestsTrack <==> claim.None? || claim.value > now
      invariant storage.Value() ==
                if id in storage.requestsTrack then old(storage.Value()) else Deleted(old(storage.Value()), id)
      invariant id in storage.requestsTrack ==> timer && now <= deadline
      invariant timer ==> now <= deadline
      invariant id !in storage.requestsTrack ==>
                  claim.value <= deadline && (timer ==> now < claim.value + 5) && now < claim.value + 10
      invariant !timer ==> now == deadline + 5 && claim.value > deadline - 5
      decreases timer, if timer then deadline - now else 0
    {
      if timer && now >= due {
        timer := false;
        if id in storage.requestsTrack {
          storage.DeleteRequestFromQueue(id);
          return now, true;
        }
      } else if id !in storage.requestsTrack {
        return now, false;
      }
      // five seconds of sleep, during which the request may be claimed
      if claim.Some? && now < claim.value <= now + 5 {
        storage.DeleteRequestFromQueue(id);
      }
      now := now + 5;
    }
  }
}
