/** Admission of a `/ocr` request by the HTTP handler. */
module OcrHttpHandler {
  import opened OcrTypes
  import opened OcrRequests
  import opened ResultsStorage
  import opened OcrRpcClients
  import opened ResManager

  datatype Response =
    | NoResources            // 503
    | GoingDown              // 503
    | BadJson                // 400
    | Failure(status: nat)
    | Inplace(result: OcrResult)
    | Written(result: OcrResult)   // with the implicit status 200

  /** The two global flags as the handler reads them under the lock. */
  datatype Flags = Flags(canAccept: bool, stop: bool)

  /** The handler's guard: the service is open and the queue is short. */
  predicate Admits(flags: Flags, queueLen: nat, bound: nat) {
    flags.canAccept && queueLen < bound
  }

  /** An error is answered with its status, everything else is written out. */
  function AnswerTo(d: Decoded): Response {
    if d.reply.failed then Failure(d.reply.httpStatus) else Written(d.reply.result)
  }

  /** The handler writes an empty result, under status 200, exactly if only the publishing of the
      request failed, or if its caller waited and an empty result arrived. */
  lemma EmptyAnswerIff(w: World, r: Request, k: Calls, response: Option<OcrResult>)
    ensures var d := DecodeOutcome(w, r, k, response);
            AnswerTo(d) == Written(NO_RESULT) <==>
              || (d.sent.None? && DecodeOutcome(w, r, k.(publish := true), response).sent.Some?)
              || (d.sent.Some? && !r.deferred && r.replyTo == "" && response == Some(NO_RESULT))
  {
    RefusalMeaning(w, r, k, response);
    DecodeMeaning(w, r, k, response);
    LeftMeaning(w, r, k, response);
  }

  /** The table, formerly `t` with the channels `was`, has one more entry `id`: a new, empty channel. */
  twostate predicate Tracks(t: Table, was: map<string, Channel>, storage: Storage, id: string, capacity: nat)
    reads storage, storage.requestsTrack.Values
  {
    && storage.Value() == Added(t, id)
    && id in storage.requestsTrack && storage.requestsTrack == was[id := storage.requestsTrack[id]]
    && fresh(storage.requestsTrack[id])
    && storage.requestsTrack[id].buffer == [] && storage.requestsTrack[id].capacity == capacity
  }

  /** The statuses of the error answers: 400 exactly for a rejected reply address, and 500 exactly if
      broker or image failed, or the caller waited in vain. */
  lemma ErrorAnswerIff(w: World, r: Request, k: Calls, response: Option<OcrResult>)
    ensures var answer := AnswerTo(DecodeOutcome(w, r, k, response));
            var sendable := DecodeOutcome(w, r, k.(publish := true), response).sent.Some?;
            && (answer == Failure(400) <==> r.replyTo != "" && w.replyUrl(r.replyTo).None?)
            && (answer == Failure(500) <==>
                  || (!sendable && !(r.replyTo != "" && w.replyUrl(r.replyTo).None?))
                  || (sendable && k.publish && !r.deferred && r.replyTo == "" && response.None?))
            && (answer.Failure? || answer.Written?) && (answer.Failure? ==> answer.status in {400, 500})
  {
    RefusalMeaning(w, r, k, response);
    DecodeMeaning(w, r, k, response);
    LeftMeaning(w, r, k, response);
    PublishingHelps(w, r, k, response);
  }

  lemma PublishingHelps(w: World, r: Request, k: Calls, response: Option<OcrResult>)
    ensures DecodeOutcome(w, r, k, response).sent.Some? <==>
            k.publish && DecodeOutcome(w, r, k.(publish := true), response).sent.Some?
  {
    DecodeMeaning(w, r, k, response);
    DecodeMeaning(w, r, k.(publish := true), response);
  }

  class OcrHTTPStatusHandler {
    const client: OcrRpcClient

    constructor (client: OcrRpcClient)
      ensures this.client == client
    {
      this.client := client;
    }

    /** The short circuit around the broker, or the whole process chain; `inplace` is the engine's
        result for the former (`None` is an engine error). */
    method HandleOcrRequest(w: World, storage: Storage, request: Request, inplaceDecode: bool,
                            inplace: Option<OcrResult>, k: Calls, response: Option<OcrResult>)
      returns (r: Response)
      modifies client, storage
      ensures if inplaceDecode then
                && client.published == old(client.published) && unchanged(storage)
                && r == if inplace.Some? then Inplace(inplace.value) else Failure(500)
              else
                var d, id := DecodeOutcome(w, request, k, response), request.settings.requestID;
                && r == AnswerTo(d)
                && client.published == old(client.published) + (if d.sent.Some? then [d.sent.value] else [])
                && if d.tracked then Tracks(old(storage.Value()), old(storage.requestsTrack), storage, id, w.capacity)
                   else unchanged(storage)
    {
      if inplaceDecode {
        return if inplace.Some? then Inplace(inplace.value) else Failure(500);
      }
      var ocrRequest := new OcrRequest(request);
      var reply, left, chan := client.DecodeImage(w, ocrRequest, storage, k, response);
      r := if reply.failed then Failure(reply.httpStatus) else Written(reply.result);
    }

    /** `body` is `None` if the request is not valid JSON. */
    method ServeHTTP(w: World, m: Manager, storage: Storage, body: Option<Request>, inplaceDecode: bool,
                     inplace: Option<OcrResult>, k: Calls, response: Option<OcrResult>)
      returns (r: Response)
      modifies client, storage
      ensures var admitted := Admits(Flags(m.serviceCanAccept, m.appStop), old(storage.Value()).length,
                                     Wrap64(m.numConsumers * m.factorForMessageAccept));
              if !admitted || body.None? || inplaceDecode then
                && client.published == old(client.published) && unchanged(storage)
                && (r.NoResources? || r.GoingDown? <==> !admitted)
                && (r.GoingDown? <==>
                      && !m.serviceCanAccept && m.appStop
                      && old(storage.requestTrackLength) < Wrap64(m.numConsumers * m.factorForMessageAccept))
                && (admitted ==>
                      r == if body.None? then BadJson
                           else if inplace.Some? then Inplace(inplace.value) else Failure(500))
              else
                var d, id := DecodeOutcome(w, body.value, k, response), body.value.settings.requestID;
                && r == AnswerTo(d)
                && client.published == old(client.published) + (if d.sent.Some? then [d.sent.value] else [])
                && if d.tracked then Tracks(old(storage.Value()), old(storage.requestsTrack), storage, id, w.capacity)
                   else unchanged(storage)
    {
      var canAcceptLocal, appStopLocal := m.serviceCanAccept, m.appStop;
      var queueLen := storage.GetQueueLen();
      var short := m.SchedulerByWorkerNumber(queueLen);
      if (!canAcceptLocal && !appStopLocal) || !short {
        return NoResources;
      }
      if !canAcceptLocal && appStopLocal {
        return GoingDown;
      }
      if body.None? {
        return BadJson;
      }
      r := HandleOcrRequest(w, storage, body.value, inplaceDecode, inplace, k, response);
    }
  }

  /** The status handler: the identifier travels in the image URL field, and an unknown one is
      answered with "not found". */
  method ServeStatus(storage: Storage, body: Option<Request>) returns (r: Option<OcrResult>)
    modifies storage, storage.requestsTrack.Values
    ensures r.None? <==> body.None?
    ensures body.None? ==> storage.Value() == old(storage.Value())
    ensures body.Some? ==>
              var id := body.value.imgUrl;
              if id !in old(storage.requestsTrack) then
                r == Some(OcrResult("", "not found", id)) && storage.Value() == old(storage.Value())
              else
                var was := old(storage.requestsTrack[id].buffer);
                match StatusOf(old(storage.Value()), was, id)
                case NotFound => false
                case Processing => r == Some(OcrResult("", "processing", id)) && storage.Value() == old(storage.Value())
                case Claimed(res) => r == Some(res) && storage.Value() == Deleted(old(storage.Value()), id)
    ensures body.Some? && body.value.imgUrl in old(storage.requestsTrack) ==>
              var id := body.value.imgUrl;
              var was := old(storage.requestsTrack[id].buffer);
              if was == [] then r == Some(OcrResult("", "processing", id)) && id in storage.requestsTrack
              else r == Some(was[0]) && id !in storage.requestsTrack
  {
    if body.None? {
      return None;
    }
    var ocrResult, ocrRequestExists := storage.CheckOcrStatusByID(body.value.imgUrl);
    if !ocrRequestExists {
      ocrResult := OcrResult("", "not found", body.value.imgUrl);
    }
    r := Some(ocrResult);
  }
}
