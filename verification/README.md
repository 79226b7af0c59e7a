# A verified model of the OCR request service

The service takes OCR requests over HTTP, publishes each one to a message broker, lets
preprocessor workers transform the image hop by hop and an OCR worker decode it, and brings the
result back to the caller: synchronously, on a status query, or by posting it to a reply address.
This project models that path and proves what it keeps under every interleaving.

The files follow the program:

- `OcrTypes.dfy`, `OcrRequests.dfy` — requests, results and the outside world as functions; the
  request object whose methods overwrite its fields.
- `Pipeline.dfy` — the preprocessing chain, message by message, against a fold; which image the
  engine reads.
- `ResultsStorage.dfy`, `StorageMicro.dfy` — the table of deferred requests with its 32-bit counter
  and gauge: as an object, as operation sequences, and at the grain of single atomic operations.
- `Lifecycle.dfy`, `LifecycleInv.dfy`, `LifecycleTheorems.dfy`, `LifecycleProgress.dfy`,
  `LifecycleDelivery.dfy` — the whole protocol as a step machine (clients, broker, workers, pollers,
  decay and postback goroutines), its inductive invariant, the theorems about all runs, termination,
  and the delivery guarantee for runs without faults.
- `Workers.dfy`, `OcrRpcClients.dfy` — the delivery loops of both kinds of workers and the client's
  publishing, response, postback and decay code, tied to the machine's steps.
- `ResManager.dfy`, `OcrHttpHandler.dfy`, `Admission.dfy` — the memory and queue gates, the handlers
  that consult them, and concurrent admission, overshoot and draining.
- `SandwichEngine.dfy`, `TesseractArgs.dfy` — the sandwich engine's file pipeline and the Tesseract
  argument builder.

Assumptions of the protocol model, all visible in `WellConfigured` and the guard of `Subscribe`:
the OCR queue is no preprocessor queue, a request identifier is not the name of a worker's queue,
and an identifier is used for one request only. Chains are arbitrary: a name in a chain may be
unbound, the OCR queue's, or a request identifier, whose callback queue then gets the message. The
engine and the preprocessors are functions of their input when they succeed; failures, crashes,
broker losses, broken connections, redeliveries, foreign deliveries and timeouts are steps that may
happen at any time. The number of postback attempts, 3 in the source, is a parameter.

Where the code does less than one would expect, the model follows the code:

- With bytes and a URL (or base64 text and a URL) in one request, the engine ignores the
  preprocessed bytes (`EngineReadsFoldIffOneSource` gives the exact condition).
- A chain entry equal to the OCR queue's key ends preprocessing early; an unbound one loses the
  message silently (`PipelineIsFold` covers every chain).
- A request whose chain names its own identifier gets its own message back and reads it as an empty
  result; `MisledIffSelfAddressed` and `SelfAddressedIffNamed` say exactly for which chains. Another
  request's identifier only loses the message.
- Deleting a table entry is not atomic, so a claim racing with the decay decrements the counter
  twice (`ClaimAndDecayUnderflow`); `GuardIsExact` shows which guard on the loads is exact.
- The signal goroutine may read an empty table before the service has stopped and then exits with a
  request tracked (`ExitMayAbandon`); `DrainedIffFinal` says exactly which empty states are final.
- A failed publish is no error for the caller: the handler writes an empty result under status 200
  (`EmptyAnswerIff` says exactly when it does). Failing pdftk or gs also leave the error empty, and a
  failing pdftotext does not stop delivery (`ProcessImageFile`).
- After a good run the text layer and the converted PDF are not deleted (`ProcessImageFile`).
- A failed run may delete its input: the read of the result file is the one failure that is not
  flagged, so the cleanup runs as after a good run. `LosesInputIff` and `HonestToolsLoseInputIff` say
  exactly when, `HollowSandwichLosesInput` gives an instance.
- The bound on admitted and tracked requests fails exactly when it does not fit the 32-bit counter
  (`BoundHoldsIffFits`).
- The memory gate judges a broker correctly under every load if and only if 95 times its total
  limit fits 64 bits (`GateCorrectIffLimitFits`); beyond that it may refuse although there is room,
  and never the other way round (`GateMisjudgesIff`).
- The decay timer is wrong for timeouts above 9 223 372 026 seconds (`TimerIsExact`).

## Model

| member | source | states |
|---|---|---|
| OcrRequests.ClampBoundedIff | ocr_rpc_client.go:86-89 | every accepted timeout is within the maximum if and only if the default is |
| OcrRequests.ClampKeepsIff | ocr_rpc_client.go:86-89 | a timeout is kept if and only if it is positive and below the maximum, or the default anyway |
| OcrRequests.OcrRequest.NextPreprocessor | ocr_request.go:30-40 | pops the last chain entry as the routing key (what is left plus the key is the old chain), or yields the OCR key for an empty chain |
| OcrRequests.NormalisedTakes | ocr_rpc_client.go:142-164 | normalising takes the bytes, else the decoded text, else the page at the URL, clears the source it took and changes nothing else |
| OcrRequests.OcrRequest.Preprocess | preprocessor_rpc_worker.go:168-183 | a preprocessor writes its tool's output over the image bytes; identity and failing ones change nothing |
| Pipeline.HopAdvances | preprocessor_rpc_worker.go:249-288 | a hop turns the k-th publication into the next: untouched chain prefix, fold of exactly the names consumed |
| Pipeline.WireFate | ocr_request.go:30-40 | whatever publication of a request is looked at, its remaining fate is that of the first |
| Pipeline.PipelineIsFold | ocr_rpc_client.go:166-195 | the fate of every request for every chain: whole fold at the OCR worker, partial fold if the OCR key is in the chain, out of the pipeline at any other unbound name |
| Pipeline.WholeChainIffBound | ocr_rpc_client.go:166-195 | the whole chain is applied if and only if all its names are bound; then the worker gets p1(p2(...pn(img))), an empty chain and otherwise unchanged fields |
| Pipeline.OneSourceReadsFold | tesseract_engine.go:97-106 | with one image source the engine reads the fold of the image asked for |
| Pipeline.NormalisingKeepsImage | tesseract_engine.go:97-106 | of a request with one image source, normalising does not change what an engine reads, and that is the image asked for |
| Pipeline.EngineReadsFoldIffOneSource | ocr_rpc_client.go:142-164 | one image source is necessary and sufficient for the engine to read the preprocessed image in every world |
| ResultsStorage.Storage.AddNewOcrResultToQueue | ocr_results_storage.go:45-49 | the entry maps to the given channel, counter and gauge rise by one |
| ResultsStorage.Storage.DeleteRequestFromQueue | ocr_results_storage.go:37-43 | the entry is gone; counter and gauge fall by one exactly if it was there |
| ResultsStorage.Storage.CheckOcrStatusByID | ocr_results_storage.go:14-31 | unknown, processing, or the channel's head with the entry removed; no other channel is touched |
| ResultsStorage.TableLaw | ocr_results_storage.go:33-49 | over every operation sequence counter and gauge exceed table and handlers by exactly the additions that reused a live identifier |
| ResultsStorage.TableAgreesIffFresh | prometheus_metrics.go:50-57 | counter and gauge agree with the table (and the active handlers) if and only if no addition reused a live identifier, for the counter up to full turns |
| StorageMicro.MicroLaw | ocr_results_storage.go:37-49 | at every micro-step counter = entries + adders before their store − deleters before their delete − redundant deletions |
| StorageMicro.GuardIsExact | ocr_results_storage.go:37-43 | for every run: every load keeps clear of other deleters of its identifier past their load, if and only if at no point the deleters past their loads could finish with a redundant deletion |
| StorageMicro.MicroAgreement | ocr_results_storage.go:19-22 | without giving up, counter = entries + adders − deleters at every micro-step |
| StorageMicro.ClaimAndDecayUnderflow | ocr_rpc_client.go:206-224 | a claim racing with the decay empties the table and leaves the counter at 2^32 − 1 |
| LifecycleInv.InvStep | ocr_rpc_client.go:123-292 | every step of every party keeps the whole invariant |
| LifecycleTheorems.NoCrosstalk | ocr_rpc_client.go:342-387 | in every run, own deliveries in the callback queue, buffered and received results, posts and status answers for an identifier derive from the one request submitted under it, and carry the identifier from the channel on |
| LifecycleTheorems.MessagesCarryOwnImage | preprocessor_rpc_worker.go:239-295 | in every run, every message in flight is, for some k, the k-th publication of the one request submitted under its correlation ID: untouched chain prefix, the image it asks for folded over exactly the k consumed names |
| LifecycleTheorems.MisledIffSelfAddressed | ocr_rpc_client.go:302-320 | a request can get a result not computed from it if and only if its pipeline ends in its own callback queue |
| LifecycleTheorems.SelfAddressedIffNamed | ocr_request.go:30-40 | that is the case if and only if the name before the trailing bound ones of the chain is its own identifier |
| LifecycleTheorems.ResultIsFold | ocr_rpc_worker.go:165-247 | a result in the channel or received from it is the engine's on the folded image that its own request asks for, or the worker's report if it failed on it |
| LifecycleTheorems.UnknownIsNotFound | ocr_http_status_handler.go:28-36 | an identifier nobody submitted is never found |
| LifecycleTheorems.AtMostOneResult | rabbit_config.go:135-137 | at most one result enters a channel, at most one party receives it, and putting it there never blocks |
| LifecycleTheorems.PhaseIffInOrder | ocr_results_storage.go:14-31 | the automaton accepts exactly not-found* processing* result? not-found* |
| LifecycleTheorems.PollHistories | ocr_rpc_client.go:200-229 | in every run, the status answers for every identifier have that shape |
| LifecycleTheorems.PollAnswers | ocr_results_storage.go:14-31 | a status query finds nothing without an entry, says processing while the channel is empty, and otherwise claims the result at its head |
| LifecycleTheorems.Conservation | ocr_rpc_worker.go:181-205 | every published request is in exactly one place or ended for exactly one reason; an acknowledged one's answer is at or on its way to the client unless its connection broke |
| LifecycleTheorems.AcknowledgedOnlyAfterAnswer | ocr_rpc_worker.go:189-205 | in every run of the protocol, which the worker's loop follows by `WorkerLoopIsRun`, no acknowledgement without an earlier published response |
| LifecycleTheorems.TableAgreement | ocr_rpc_client.go:197-229 | in every state the table holds exactly the requests still served and unclaimed, and counter and gauge count them |
| LifecycleTheorems.PostbackOutcome | ocr_rpc_client.go:232-277 | a finished postback is untracked; without a receipt it posted exactly one empty result with status error and its identifier, otherwise that or its one result 1 to max(1, retries) times |
| LifecycleProgress.StepDecreases | ocr_request.go:30-40 | every internal step and every claim decreases the measure of chains, stages, responses and attempts; other queries leave it |
| LifecycleProgress.Terminates | ocr_rpc_client.go:243-276 | after any history, the further internal steps and claims without new requests and redeliveries are bounded |
| LifecycleProgress.NeverStuck | ocr_rpc_client.go:206-224 | while a message is in flight, a request tracked or a client unfinished, some fault-free step is enabled, for a decodable image with a successful engine run |
| LifecycleProgress.RestIsEmpty | ocr_results_storage.go:37-43 | a state without enabled work has an empty table and no message in flight |
| LifecycleProgress.AccountedAtRest | ocr_rpc_worker.go:181-205 | at rest every published request ended for one recorded reason, and an acknowledged one's result reached its channel unless the connection broke |
| LifecycleDelivery.ComesToRest | ocr_rpc_client.go:206-276 | every reachable state can come to rest without a fault |
| LifecycleDelivery.EveryRequestIsAnswered | ocr_rpc_worker.go:181-205 | in every run without faults, at rest, every published request with a bound chain has exactly one result: with one image source the engine's on the fold, or the report of a failed engine run |
| Workers.PreprocessorRpcWorker.New | preprocessor_rpc_worker.go:29-50 | a worker exists exactly for the three known preprocessors |
| Workers.PreprocessorRpcWorker.Handle | preprocessor_rpc_worker.go:150-166 | the loop publishes the hops of the good deliveries in order, skipping the failed ones |
| Workers.PreprocessorLoopIsRun | preprocessor_rpc_worker.go:239-295 | the loop is a run of the protocol, one step per delivery: a hop if and only if its body is readable, the tool is the identity or succeeds, and publishing succeeds, otherwise a failure; its publications are those of the hops |
| Workers.ForwardedFromDelivery | preprocessor_rpc_worker.go:272-291 | everything published carries correlation ID and reply address of one of the deliveries |
| Workers.WorkerHopIsStep | preprocessor_rpc_worker.go:249-288 | the worker's publication is the protocol's preprocessing step |
| Workers.OcrRpcWorker.Handle | ocr_rpc_worker.go:165-212 | responds then acknowledges each delivery, and stops at the first response it cannot send |
| Workers.EveryDeliveryIsAnswered | ocr_rpc_worker.go:165-212 | every delivery up to the first response that cannot be sent, readable or not, is answered to its own address in order, and acknowledged unless that fails |
| Workers.OcrRpcWorker.ResultForDelivery | ocr_rpc_worker.go:214-247 | the engine's result on base64 text, else URL, else bytes; or an error report that names request or correlation ID and the failure |
| Workers.WorkerLoopIsRun | ocr_rpc_worker.go:165-212 | the worker's loop is a run of the protocol's answering and acknowledging steps with the loop's log as its trace, and exactly the unacknowledged messages stay with the broker for redelivery |
| Workers.AckFollowsAnswer | ocr_rpc_worker.go:189-205 | an acknowledged delivery was answered immediately before, to its own address and correlation ID |
| OcrRpcClients.DecodeMeaning | ocr_rpc_client.go:62-204 | a request goes out exactly if reply address, broker and image are fine, and is tracked exactly if it went out and is deferred or has a reply address |
| OcrRpcClients.PublishedIsAsked | ocr_rpc_client.go:62-195 | what goes out is the request as submitted: image by bytes, text or URL, key and chain split, timeout and deferred mode settled, all else unchanged |
| OcrRpcClients.LeftMeaning | ocr_rpc_client.go:203-291 | a postback stays behind for a usable reply address, the decay for other tracked requests, otherwise the caller waits; tracked requests are answered at once with their identifier |
| OcrRpcClients.RefusalMeaning | ocr_rpc_client.go:62-195 | a request that does not go out is refused with an error, except exactly those held back by the publishing alone; status 400 exactly for a rejected reply address, and what the caller is told |
| OcrRpcClients.OcrRpcClient.DecodeImage | ocr_rpc_client.go:43-292 | reply, goroutine left running, publication, table entry and channel are those of the outcome function, for every combination of failures |
| OcrRpcClients.ClientPublishIsStep | ocr_rpc_client.go:142-200 | for all outcomes of the calls, what `DecodeImage` publishes is the protocol's publishing step, done if and only if that is enabled and no call fails, and followed by tracking if and only if that step is enabled |
| OcrRpcClients.HandleRPCResponse | ocr_rpc_client.go:342-387 | exactly the first delivery with the right correlation ID enters the channel, which never overflows |
| OcrRpcClients.ConsumeRefines | ocr_rpc_client.go:349-386 | the protocol's consuming steps do to a client what the goroutine's loop does |
| OcrRpcClients.PostBack | ocr_rpc_client.go:232-277 | between 1 and max(1, retries) posts of the one result, stopping at the first success; one error post after a timeout; the entry is removed on every path |
| OcrRpcClients.PostBackIsRun | ocr_rpc_client.go:232-277 | whatever `PostBack` does is a run of the protocol's receiving, posting and deleting steps with exactly its posts |
| OcrRpcClients.Decay | ocr_rpc_client.go:206-224 | removes an unclaimed request at the first five-second wake once the timer is due, before timeout + 15 s for every timeout the timer can be set to, and ends soon after a claim |
| OcrRpcClients.DecayIsRun | ocr_rpc_client.go:206-224 | the decay, alone or after a claim, is a run of the protocol that removes the entry once |
| OcrRpcClients.TimerIsExact | ocr_rpc_client.go:207 | the timer is due after timeout + 10 s if and only if that fits a 64-bit nanosecond duration |
| ResManager.GateWithoutWrap | ocr_res_manager.go:98-111 | without wrap-around the memory gate is open exactly while 100 · (used + 1) ≤ 95 · limit |
| ResManager.GateMisjudgesIff | ocr_res_manager.go:98-111 | the gate never opens without room, and stays closed in spite of room exactly if wrapping leaves no more than the use of the percentage |
| ResManager.GateCorrectIffLimitFits | ocr_res_manager.go:107 | for every list of nodes: the gate is correct under every load if and only if 95 times the total limit fits 64 bits |
| ResManager.AvailableIsReady | ocr_res_manager.go:82-94 | availability implies room in memory, consumers and a queue shorter than consumers times factor; and is implied by them when nothing wraps |
| ResManager.GateWraps | ocr_res_manager.go:107 | an instance: an idle broker just above that limit is refused |
| ResManager.GateIgnoresOrder | ocr_res_manager.go:102-105 | the gate does not depend on the order of the nodes |
| ResManager.GateIsMonotone | ocr_res_manager.go:98-111 | less use or more limit on a node never closes the gate |
| ResManager.Manager.SchedulerByMemoryLoad | ocr_res_manager.go:98-111 | the summing loop computes the gate over exact sums modulo 2^64 |
| ResManager.Manager.CheckForAcceptRequest | ocr_res_manager.go:45-95 | available only with both statistics read, room in memory, consumers and a short queue, and exactly then when nothing wraps; what is remembered, also from malformed answers, and when it is a technical error |
| ResManager.Manager.SetResManagerState | ocr_res_manager.go:124-169 | for any readings of the counter at the polls: open as the last check said, so only on a broker with room, consumers and a short queue, until the first stop, then closed and stopped for good |
| OcrHttpHandler.OcrHTTPStatusHandler.ServeHTTP | ocr_http_handler.go:36-106 | an unadmitted, malformed or inplace request publishes and tracks nothing; every other one has exactly the client's outcome, and a tracked one a new empty channel in the table |
| OcrHttpHandler.EmptyAnswerIff | ocr_http_handler.go:86-106 | an empty result is written, under status 200, if and only if only the publishing failed or the awaited result is empty |
| OcrHttpHandler.ErrorAnswerIff | ocr_http_handler.go:86-93 | status 400 exactly for a rejected reply address, 500 exactly if broker or image failed or the caller waited in vain |
| OcrHttpHandler.ServeStatus | ocr_http_status_handler.go:16-56 | not found, processing or the claimed result, with the table changed only by a claim |
| Admission.RoundIsStep | ocr_res_manager.go:134-151 | every round of the polling loop is a step of the admission machine, however long ago it read the counter |
| Admission.GuardIsSteps | ocr_http_handler.go:50-73 | the handler's guard is two steps with anything in between, admitting exactly if flags read first and counter read later allow it |
| Admission.OutcomeIsStep | ocr_rpc_client.go:197-200 | tracking or not tracking an admitted request moves table counter and machine alike |
| Admission.AdmissionBound | ocr_http_handler.go:50-73 | with K handlers, tracked plus admitted requests never exceed B − 1 + K |
| Admission.BoundIsAttained | ocr_rpc_client.go:197-200 | for all K and B some run reaches B − 1 + K |
| Admission.BoundHoldsIffFits | ocr_results_storage.go:33-35 | for all K and B, the bound B − 1 + K holds in all runs if and only if it fits the 32-bit counter |
| Admission.Drain | ocr_res_manager.go:134-151 | after the stop the service stays closed and pending requests never grow |
| Admission.DrainedIffFinal | cli-httpd/main.go:92-99 | the table stays empty in all futures if and only if the state is drained |
| Admission.AwaitEmptyQueue | cli-httpd/main.go:92-107 | the drain loop ends at the first zero reading and not before |
| Admission.ExitMayAbandon | cli-httpd/main.go:90-108 | a run in which the process exits with a tracked request |
| SandwichEngine.NamesNeverCollide | sandwich_engine.go:262-279 | no derived file name equals the input, the converted file or another derived one, for every input name |
| SandwichEngine.FlagsReadBackIffKeysPlain | sandwich_engine.go:108-123 | reading the exported flags back recovers the language always, and the configuration pairs in order if and only if no key contains '=' |
| SandwichEngine.ConversionFailsIffBothFail | sandwich_engine.go:344-371 | conversion fails exactly when both converters fail, and prefers the configured one |
| SandwichEngine.WorkingToolsDeliver | sandwich_engine.go:396-476 | if every needed tool works, the composition of the tools is delivered, whatever else is in the file system, with pdfsandwich called with flags that say the language and configuration asked for |
| SandwichEngine.FlaggedIffToolFails | sandwich_engine.go:382-476 | with tools that exit with 0 only after their work, a failure is flagged exactly if some needed tool fails or the output type is unknown |
| SandwichEngine.SilentFailureIff | sandwich_engine.go:410-447 | the early returns without an error are those after pdftk and gs, and no others |
| SandwichEngine.RecordedNames | sandwich_engine.go:342-463 | the recorded files are the input, the combined and the compressed file of a combined PDF, and the text file of a text |
| SandwichEngine.UpperMeaning | sandwich_engine.go:373 | the output type is compared with its letters in upper case |
| SandwichEngine.Produce | sandwich_engine.go:396-476 | for every exit code and leftover, the file to deliver, its contents, the early returns and the flag are the specification's |
| SandwichEngine.ProcessPdf | sandwich_engine.go:377-487 | result, error and error flag of the stages and of the final read, which is not flagged, and what they wrote and recorded |
| SandwichEngine.ProcessImageFile | sandwich_engine.go:301-488 | on every path, the delivered text encodes what the pipeline left in the result file; exactly the recorded files are removed if the image was converted, files are not kept and nothing was flagged, whatever the result, and no file otherwise |
| SandwichEngine.LosesInputIff | sandwich_engine.go:478-483 | a run without a result loses its input if and only if the cleanup runs and the result file is unreadable, or was not written by its tool nor there before |
| SandwichEngine.HonestToolsLoseInputIff | sandwich_engine.go:309-321 | with tools that exit with 0 only after their work: if and only if all of them worked and their result cannot be read |
| SandwichEngine.HollowSandwichLosesInput | sandwich_engine.go:453-454 | an instance: pdfsandwich exits with 0 without having written the text layer asked for |
| TesseractArgs.NewTesseractEngineArgs | tesseract_engine.go:22-74 | made exactly for string values, with the given map, mode and language; refused or panicking otherwise |
| TesseractArgs.Export | tesseract_engine.go:78-93 | the arguments of the map in some order of iteration, then mode and language |
| TesseractArgs.RoundTripIffKeysPlain | tesseract_engine.go:78-93 | reading the exported arguments back recovers map, mode and language if and only if no key contains '=' |
| TesseractArgs.JsonRoundTripIffKeysPlain | tesseract_engine.go:22-93 | from the JSON arguments to the command line and back: recovers map, mode and language if and only if no key contains '=' |

## Left out

- AMQP dialling, declarations, publisher confirms, reconnecting and worker shutdown: broker library I/O; the calls that can fail are boolean inputs of `DecodeImage`.
- Execution of processes, HTTP transport and temporary-file creation: outcomes are inputs, results are functions.
- JSON, base64, URL and MIME codecs: a body is a request or unreadable; marshalling is the identity on the modelled fields.
- The `/ocr-file-upload` route and its bypass of admission; the inplace route only as far as it leaves broker and table alone.
- Message priorities: the broker model delivers queued messages in any order.
- Engines without an implementation (the Go binding and unknown numbers), on which the source dereferences nil.
- The effective length of the postback wait, which multiplies two durations: the timeout may happen at any time.
- LifecycleProgress.Terminates: redeliveries after crashes are not counted, because a crashing worker can repeat them for ever.
- LifecycleTheorems.NoCrosstalk: identifiers are assumed not to be reused and not to be names of workers' queues; the source takes a caller's own identifier unchecked.
- Admission.AdmissionBound: for `/ocr` handlers only, and as far as B − 1 + K fits the 32-bit counter, beyond which it is false.
- OcrRpcClients.Decay: a timer that is due at once fires at the first look; sleeps take exactly five seconds and the poller's claim is one step; the racing case is in `StorageMicro`.
- SandwichEngine.ProcessImageFile: upper-casing of the output type is ASCII only, and no other process touches the engine's files.
- Logging, landing page, metrics other than the in-flight gauge, flag parsing, file type detection and document-type priorities.
