/** The two kinds of queue workers as delivery loops with effects on the broker. */
module Workers {
  import opened OcrTypes
  import opened OcrRequests
  import opened Pipeline
  import opened Lifecycle

  const STROKE_WIDTH_TRANSFORM := "stroke-width-transform"
  const CONVERT_PDF := "convert-pdf"

  /** A delivery and its body; for invalid JSON, the decoder's error. */
  datatype Body = Readable(request: Request) | Unreadable(error: string)
  datatype Incoming = Incoming(tag: nat, corr: string, replyTo: string, body: Body)

  datatype Publication = Publication(key: string, msg: Message)

  /** The broker delivers message `m` as `d`, with a body that is unreadable or its own. */
  predicate Carries(d: Incoming, m: Message) {
    d.corr == m.corr && d.replyTo == m.replyTo && (d.body.Readable? ==> d.body.request == m.body)
  }

  // ----- preprocessor workers -----

  /** How the tool and the publishing of one delivery turn out. */
  datatype Fortune = Fortune(toolSucceeds: bool, publishSucceeds: bool)

  predicate Forwards(name: string, d: Incoming, f: Fortune) {
    d.body.Readable? && (name == IDENTITY || f.toolSucceeds) && f.publishSucceeds
  }

  /** The message a preprocessor worker sends on, under the key it popped. */
  function HopPublication(w: World, name: string, d: Incoming): Publication
    requires d.body.Readable?
  {
    Publication(NextKey(w, d.body.request.chain), Message(d.corr, d.replyTo, Hop(w, name, d.body.request)))
  }

  /** What a worker publishes for a list of deliveries: nothing for those that fail. */
  function Forwarded(w: World, name: string, ds: seq<Incoming>, fs: seq<Fortune>): seq<Publication>
    requires |fs| == |ds|
  {
    if ds == [] then []
    else
      var n := |ds| - 1;
      Forwarded(w, name, ds[..n], fs[..n])
      + if Forwards(name, ds[n], fs[n]) then [HopPublication(w, name, ds[n])] else []
  }

  class PreprocessorRpcWorker {
    const bindingKey: string
    var published: seq<Publication>

    constructor (name: string)
      ensures bindingKey == name && published == []
    {
      bindingKey := name;
      published := [];
    }

    /** Only the three known preprocessors have a worker. */
    static method New(name: string) returns (worker: PreprocessorRpcWorker?)
      ensures worker != null <==> name in {"stroke-width-transform", "identity", "convert-pdf"}
      ensures worker != null ==> fresh(worker) && worker.bindingKey == name && worker.published == []
    {
      if name != STROKE_WIDTH_TRANSFORM && name != IDENTITY && name != CONVERT_PDF {
        return null;
      }
      worker := new PreprocessorRpcWorker(name);
    }

    method HandleDelivery(w: World, d: Incoming, f: Fortune) returns (ok: bool)
      modifies this
      ensures ok <==> d.body.Readable? && (bindingKey == "identity" || f.toolSucceeds) && f.publishSucceeds
      ensures published == old(published) + if ok then [HopPublication(w, bindingKey, d)] else []
    {
      if d.body.Unreadable? {
        return false;
      }
      var ocrRequest := new OcrRequest(d.body.request);
      var routingKey := ocrRequest.NextPreprocessor(w);
      assert ocrRequest.Value() == d.body.request.(chain := Popped(d.body.request.chain));
      var done := ocrRequest.Preprocess(w, bindingKey, f.toolSucceeds);
      if !done || !f.publishSucceeds {
        return false;
      }
      published := published + [Publication(routingKey, Message(d.corr, d.replyTo, ocrRequest.Value()))];
      ok := true;
    }

    /** A failed delivery is logged and does not stop the loop. */
    method Handle(w: World, ds: seq<Incoming>, fs: seq<Fortune>)
      requires |fs| == |ds|
      modifies this
      ensures published == old(published) + Forwarded(w, bindingKey, ds, fs)
    {
      for i := 0 to |ds|
        invariant published == old(published) + Forwarded(w, bindingKey, ds[..i], fs[..i])
      {
        var ok := HandleDelivery(w, ds[i], fs[i]);
        assert ds[..i + 1][..i] == ds[..i] && fs[..i + 1][..i] == fs[..i];
      }
      assert ds[..|ds|] == ds && fs[..|ds|] == fs;
    }
  }

  /** A worker neither invents nor mixes up correlation IDs: everything it publishes answers to
      one of its deliveries, with that delivery's correlation ID and reply address. */
  lemma {:induction false} ForwardedFromDelivery(
      w: World, name: string, ds: seq<Incoming>, fs: seq<Fortune>, p: Publication)
    requires |fs| == |ds| && p in Forwarded(w, name, ds, fs)
    ensures exists k :: 0 <= k < |ds| && Forwards(name, ds[k], fs[k]) && p == HopPublication(w, name, ds[k])
  {
    var n := |ds| - 1;
    if p in Forwarded(w, name, ds[..n], fs[..n]) {
      ForwardedFromDelivery(w, name, ds[..n], fs[..n], p);
      var k :| 0 <= k < n && Forwards(name, ds[..n][k], fs[..n][k]) && p == HopPublication(w, name, ds[..n][k]);
      assert ds[k] == ds[..n][k] && fs[k] == fs[..n][k];
    }
  }

  /** The worker's publication is the protocol's preprocessing step. */
  lemma WorkerHopIsStep(w: World, s: State, n: nat, d: Incoming)
    requires Enabled(w, s, PreDone(n))
    requires Carries(d, s.net[n].msg) && d.body.Readable?
    ensures var p := HopPublication(w, s.net[n].place.key, d);
            NetStep(w, s, PreDone(n)) == Forward(w, s, n, p.key, p.msg)
  {
  }

  // ----- OCR workers -----

  /** How engine, publishing and acknowledging of one delivery turn out. */
  datatype Work = Work(run: EngineRun, sendSucceeds: bool, ackSucceeds: bool)

  datatype Effect = Respond(key: string, corr: string, result: OcrResult) | Ack(tag: nat)

  /** `k` can be what happens to `d`. */
  predicate Runnable(w: World, d: Incoming, k: Work) {
    match d.body
    case Unreadable(e) => k.run == Garbled(e)
    case Readable(r) => !k.run.Garbled? && (k.run.Ran? ==> EngineImage(w, r).Some?)
  }

  /** An unreadable body is answered too, with an error naming the correlation ID. */
  function ResultFor(w: World, d: Incoming, k: Work): OcrResult
    requires Runnable(w, d, k)
  {
    if d.body.Unreadable? then OcrResult(GarbledText(d.corr) + d.body.error, "error", d.corr)
    else WorkerResult(w, Message(d.corr, d.replyTo, d.body.request), k.run)
  }

  ghost predicate AllRunnable(w: World, ds: seq<Incoming>, ks: seq<Work>)
    requires |ks| == |ds|
  {
    forall i :: 0 <= i < |ds| ==> Runnable(w, ds[i], ks[i])
  }

  function DeliveryEffects(w: World, d: Incoming, k: Work): seq<Effect>
    requires Runnable(w, d, k)
  {
    [Respond(d.replyTo, d.corr, ResultFor(w, d, k))] + if k.ackSucceeds then [Ack(d.tag)] else []
  }

  /** Publish, then acknowledge; the first response that cannot be sent stops the worker. */
  function Effects(w: World, ds: seq<Incoming>, ks: seq<Work>): seq<Effect>
    requires |ks| == |ds| && forall i :: 0 <= i < |ds| ==> Runnable(w, ds[i], ks[i])
  {
    if ds == [] || !ks[0].sendSucceeds then []
    else
      DeliveryEffects(w, ds[0], ks[0]) + Effects(w, ds[1..], ks[1..])
  }

  lemma EffectsFrom(w: World, ds: seq<Incoming>, ks: seq<Work>, i: nat)
    requires |ks| == |ds| && AllRunnable(w, ds, ks) && i < |ds| && ks[i].sendSucceeds
    ensures Effects(w, ds[i..], ks[i..]) ==
            DeliveryEffects(w, ds[i], ks[i]) + Effects(w, ds[i + 1..], ks[i + 1..])
  {
    assert ds[i..][1..] == ds[i + 1..] && ks[i..][1..] == ks[i + 1..];
  }

  class OcrRpcWorker {
    var log: seq<Effect>

    constructor ()
      ensures log == []
    {
      log := [];
    }

    method ResultForDelivery(w: World, d: Incoming, k: Work) returns (r: OcrResult)
      requires Runnable(w, d, k)
      ensures r == ResultFor(w, d, k)
      ensures d.body.Unreadable? ==>
                r == OcrResult("Error unmarshalling json: " + d.corr + ".  Error: " + d.body.error, "error", d.corr)
      ensures d.body.Readable? && k.run.Failed? ==>
                && r.text == "Error processing image url: " + d.body.request.settings.requestID
                             + ".  Error: " + k.run.error
                && r.status == "error"
      ensures d.body.Readable? && k.run.Ran? ==>
                var q := d.body.request;
                r == w.engine(q.settings, q.timeOut,
                              if q.imgBase64 != "" then w.base64(q.imgBase64).value
                              else if q.imgUrl != "" then w.download(q.imgUrl)
                              else BytesOf(q.imgBytes))
    {
      r := OcrResult("", "", d.corr);
      if d.body.Unreadable? {
        r := r.(text := GarbledText(d.corr) + d.body.error, status := "error");
        return;
      }
      var ocrRequest := new OcrRequest(d.body.request);
      if k.run.Failed? {
        r := OcrResult("", "", "");
        r := r.(text := ErrorText(ocrRequest.settings.requestID) + k.run.error, status := "error");
        return;
      }
      r := w.engine(ocrRequest.settings, ocrRequest.timeOut, EngineImage(w, ocrRequest.Value()).value);
    }

    method Handle(w: World, ds: seq<Incoming>, ks: seq<Work>)
      requires |ks| == |ds| && AllRunnable(w, ds, ks)
      modifies this
      ensures log == old(log) + Effects(w, ds, ks)
    {
      var i := 0;
      while i < |ds|
        invariant 0 <= i <= |ds|
        invariant log + Effects(w, ds[i..], ks[i..]) == old(log) + Effects(w, ds, ks)
      {
        var r := ResultForDelivery(w, ds[i], ks[i]);
        if !ks[i].sendSucceeds {
          return;
        }
        log := log + [Respond(ds[i].replyTo, ds[i].corr, r)];
        if ks[i].ackSucceeds {
          log := log + [Ack(ds[i].tag)];
        }
        EffectsFrom(w, ds, ks, i);
        i := i + 1;
      }
    }
  }

  /** Answer before acknowledgement: whatever fails, an acknowledged delivery was answered
      immediately before, to its own reply address and correlation ID. */
  lemma {:induction false} AckFollowsAnswer(w: World, ds: seq<Incoming>, ks: seq<Work>, e: nat) returns (k: nat)
    requires |ks| == |ds| && AllRunnable(w, ds, ks)
    requires e < |Effects(w, ds, ks)| && Effects(w, ds, ks)[e].Ack?
    ensures e > 0 && k < |ds| && Effects(w, ds, ks)[e] == Ack(ds[k].tag)
    ensures Effects(w, ds, ks)[e - 1] == Respond(ds[k].replyTo, ds[k].corr, ResultFor(w, ds[k], ks[k]))
  {
    var head := if ks[0].ackSucceeds then 2 else 1;
    if e < head {
      k := 0;
    } else {
      assert AllRunnable(w, ds[1..], ks[1..]);
      k := AckFollowsAnswer(w, ds[1..], ks[1..], e - head);
      k := k + 1;
    }
  }

  /** The addresses answered, and the tags acknowledged, in order. */
  function Addresses(es: seq<Effect>): seq<(string, string)> {
    if es == [] then []
    else (if es[0].Respond? then [(es[0].key, es[0].corr)] else []) + Addresses(es[1..])
  }

  function AckTags(es: seq<Effect>): seq<nat> {
    if es == [] then [] else (if es[0].Ack? then [es[0].tag] else []) + AckTags(es[1..])
  }

  function AckedTags(ds: seq<Incoming>, ks: seq<Work>): seq<nat>
    requires |ks| == |ds|
  {
    if ds == [] then [] else (if ks[0].ackSucceeds then [ds[0].tag] else []) + AckedTags(ds[1..], ks[1..])
  }

  /** Every delivery up to the first whose response cannot be sent is answered, readable or not, to
      its own address, in order; and acknowledged unless that fails. */
  lemma {:induction false} EveryDeliveryIsAnswered(w: World, ds: seq<Incoming>, ks: seq<Work>, m: nat)
    requires |ks| == |ds| && AllRunnable(w, ds, ks) && m <= |ds|
    requires (forall i :: 0 <= i < m ==> ks[i].sendSucceeds) && (m < |ds| ==> !ks[m].sendSucceeds)
    ensures Addresses(Effects(w, ds, ks)) == seq(m, i requires 0 <= i < m => (ds[i].replyTo, ds[i].corr))
    ensures AckTags(Effects(w, ds, ks)) == AckedTags(ds[..m], ks[..m])
    decreases m
  {
    if m > 0 {
      var first, rest := DeliveryEffects(w, ds[0], ks[0]), Effects(w, ds[1..], ks[1..]);
      EveryDeliveryIsAnswered(w, ds[1..], ks[1..], m - 1);
      assert ds[..m][1..] == ds[1..][..m - 1] && ks[..m][1..] == ks[1..][..m - 1];
      FirstEffects(ds[0], ks[0], first, rest);
    }
  }

  lemma FirstEffects(d: Incoming, k: Work, first: seq<Effect>, rest: seq<Effect>)
    requires |first| == (if k.ackSucceeds then 2 else 1) && first[0].Respond?
    requires first[0].key == d.replyTo && first[0].corr == d.corr && (k.ackSucceeds ==> first[1] == Ack(d.tag))
    ensures Addresses(first + rest) == [(d.replyTo, d.corr)] + Addresses(rest)
    ensures AckTags(first + rest) == (if k.ackSucceeds then [d.tag] else []) + AckTags(rest)
  {
    var tail := first[1..] + rest;
    assert (first + rest)[1..] == tail;
    if k.ackSucceeds { assert tail[1..] == rest; } else { assert tail == rest; }
  }

  // ----- the loops as runs of the protocol -----

  /** The worker for `name` has taken the deliveries `ds`, as the messages from `n` on. */
  predicate Taken(s: State, n: nat, name: string, ds: seq<Incoming>) {
    && n + |ds| <= |s.net|
    && forall i :: 0 <= i < |ds| ==> TakenAs(s.net[n + i], name, ds[i])
  }

  predicate TakenAs(x: Item, name: string, d: Incoming) { x.place == PreHand(name) && Carries(d, x.msg) }

  /** What a step of the protocol publishes. */
  function Sends(w: World, s: State, step: Step): seq<Publication>
    requires Enabled(w, s, step)
  {
    match step
    case PreDone(n) =>
      var m := s.net[n].msg;
      [Publication(NextKey(w, m.body.chain), Message(m.corr, m.replyTo, Hop(w, s.net[n].place.key, m.body)))]
    case _ => []
  }

  function Publications(w: World, s: State, steps: seq<Step>): seq<Publication>
    requires Valid(w, s, steps)
    decreases |steps|
  {
    if steps == [] then [] else Sends(w, s, steps[0]) + Publications(w, Apply(w, s, steps[0]), steps[1..])
  }

  /** One delivery after the other ends: by a hop if its body is readable, the tool is the identity
      or succeeds, and publishing succeeds; by a failure otherwise. */
  predicate EndsEach(w: World, s: State, name: string, ds: seq<Incoming>, fs: seq<Fortune>, steps: seq<Step>)
    requires |fs| == |ds| && Valid(w, s, steps)
    decreases |ds|
  {
    if ds == [] then steps == []
    else
      && steps != [] && (steps[0].PreDone? || steps[0].PreFail?) && steps[0].n < |s.net|
      && s.net[steps[0].n].place == PreHand(name) && Carries(ds[0], s.net[steps[0].n].msg)
      && (steps[0].PreDone? <==>
            ds[0].body.Readable? && (name == "identity" || fs[0].toolSucceeds) && fs[0].publishSucceeds)
      && EndsEach(w, Apply(w, s, steps[0]), name, ds[1..], fs[1..], steps[1..])
  }

  function HopStep(n: nat, name: string, d: Incoming, f: Fortune): Step {
    if Forwards(name, d, f) then PreDone(n) else PreFail(n, PreprocessingFailed)
  }

  /** A hop leaves the message in its place if its key is routable; in all other cases it is gone. */
  lemma HopInTaken(w: World, s: State, n: nat, name: string, ds: seq<Incoming>, f: Fortune) returns (n': nat)
    requires ds != [] && Taken(s, n, name, ds)
    ensures var step := HopStep(n, name, ds[0], f);
            && Enabled(w, s, step) && Taken(Apply(w, s, step), n', name, ds[1..])
            && Sends(w, s, step) == if Forwards(name, ds[0], f) then [HopPublication(w, name, ds[0])] else []
  {
    var step := HopStep(n, name, ds[0], f);
    assert TakenAs(s.net[n + 0], name, ds[0]);
    var d := NetStep(w, s, step);
    n' := if d.Move? then n + 1 else n;
    assert (d.Move? || d.End?) && d.n == n;
    TakenRest(s, Apply(w, s, step), n, n', name, ds, d);
  }

  lemma TakenRest(s: State, later: State, n: nat, n': nat, name: string, ds: seq<Incoming>, d: NetChange)
    requires ds != [] && Taken(s, n, name, ds) && (d.Move? || d.End?) && d.n == n
    requires later.net == NetAfter(s.net, d) && n' == if d.Move? then n + 1 else n
    ensures Taken(later, n', name, ds[1..])
  {
    forall i | 0 <= i < |ds[1..]|
      ensures TakenAs(later.net[n' + i], name, ds[1..][i])
    {
      assert ds[1..][i] == ds[i + 1] && TakenAs(s.net[n + (i + 1)], name, ds[i + 1]);
      assert later.net[n' + i] == s.net[n + (i + 1)];
    }
  }

  lemma ForwardedCons(w: World, name: string, ds: seq<Incoming>, fs: seq<Fortune>)
    requires ds != [] && |fs| == |ds|
    ensures Forwarded(w, name, ds, fs)
            == (if Forwards(name, ds[0], fs[0]) then [HopPublication(w, name, ds[0])] else [])
               + Forwarded(w, name, ds[1..], fs[1..])
    decreases |ds|
  {
    var n := |ds| - 1;
    if n > 0 {
      ForwardedCons(w, name, ds[..n], fs[..n]);
      assert ds[..n][1..] == ds[1..][..n - 1] && fs[..n][1..] == fs[1..][..n - 1];
    }
  }

  lemma PublicationsCons(w: World, s: State, step: Step, rest: seq<Step>)
    requires Enabled(w, s, step) && Valid(w, Apply(w, s, step), rest)
    ensures Valid(w, s, [step] + rest)
    ensures Publications(w, s, [step] + rest) == Sends(w, s, step) + Publications(w, Apply(w, s, step), rest)
  {
    assert ([step] + rest)[1..] == rest;
  }

  lemma EndsEachCons(w: World, s: State, name: string, ds: seq<Incoming>, fs: seq<Fortune>, n: nat, rest: seq<Step>)
    requires ds != [] && |fs| == |ds| && Taken(s, n, name, ds)
    requires Enabled(w, s, HopStep(n, name, ds[0], fs[0]))
    requires Valid(w, Apply(w, s, HopStep(n, name, ds[0], fs[0])), rest)
    requires EndsEach(w, Apply(w, s, HopStep(n, name, ds[0], fs[0])), name, ds[1..], fs[1..], rest)
    ensures var steps := [HopStep(n, name, ds[0], fs[0])] + rest;
            Valid(w, s, steps) && EndsEach(w, s, name, ds, fs, steps)
  {
    var step := HopStep(n, name, ds[0], fs[0]);
    assert ([step] + rest)[1..] == rest;
    assert TakenAs(s.net[n + 0], name, ds[0]);
  }

  /** The loop of a preprocessor worker is a run of the protocol, one step per delivery, and what it
      publishes is, in order, what the hops of that run publish. */
  lemma {:induction false} PreprocessorLoopIsRun(
      w: World, s: State, n: nat, name: string, ds: seq<Incoming>, fs: seq<Fortune>) returns (steps: seq<Step>)
    requires |fs| == |ds| && Taken(s, n, name, ds)
    ensures |steps| == |ds| && Valid(w, s, steps) && EndsEach(w, s, name, ds, fs, steps)
    ensures Publications(w, s, steps) == Forwarded(w, name, ds, fs)
    decreases |ds|
  {
    if ds == [] {
      steps := [];
    } else {
      var step := HopStep(n, name, ds[0], fs[0]);
      var n' := HopInTaken(w, s, n, name, ds, fs[0]);
      var rest := PreprocessorLoopIsRun(w, Apply(w, s, step), n', name, ds[1..], fs[1..]);
      PublicationsCons(w, s, step, rest);
      EndsEachCons(w, s, name, ds, fs, n, rest);
      ForwardedCons(w, name, ds, fs);
      steps := [step] + rest;
    }
  }

  // The loop of the OCR worker.

  /** The worker holds the deliveries `ds`, unacknowledged, as the messages from `n` on. */
  predicate InHand(s: State, n: nat, ds: seq<Incoming>) {
    && n + |ds| <= |s.net|
    && forall i :: 0 <= i < |ds| ==>
         s.net[n + i].place == OcrHand(ds[i].tag, false) && Carries(ds[i], s.net[n + i].msg)
  }

  function NextInHand(n: nat, k: Work): nat { if k.ackSucceeds then n else n + 1 }

  function DeliverySteps(n: nat, k: Work): seq<Step> {
    [OcrAnswer(n, k.run)] + if k.ackSucceeds then [OcrAck(n)] else []
  }

  /** The protocol's steps behind the loop: an answer per delivery, with an acknowledgement
      unless that fails, up to the first answer that cannot be sent. */
  function LoopSteps(n: nat, ds: seq<Incoming>, ks: seq<Work>): seq<Step>
    requires |ks| == |ds|
    decreases |ds|
  {
    if ds == [] || !ks[0].sendSucceeds then []
    else DeliverySteps(n, ks[0]) + LoopSteps(NextInHand(n, ks[0]), ds[1..], ks[1..])
  }

  /** What a step of the protocol shows to the broker. */
  function Shown(w: World, s: State, step: Step): seq<Effect>
    requires Enabled(w, s, step)
  {
    match step
    case OcrAnswer(n, run) =>
      var m := s.net[n].msg;
      [Respond(m.replyTo, m.corr, WorkerResult(w, m, run))]
    case OcrAck(n) => [Ack(s.net[n].place.tag)]
    case _ => []
  }

  function Trace(w: World, s: State, steps: seq<Step>): seq<Effect>
    requires Valid(w, s, steps)
    decreases |steps|
  {
    if steps == [] then [] else Shown(w, s, steps[0]) + Trace(w, Apply(w, s, steps[0]), steps[1..])
  }

  function Kept(x: Item, tag: nat, k: Work): seq<Item> {
    if k.ackSucceeds then [] else [x.(place := OcrHand(tag, true))]
  }

  /** The messages left in the worker's hands: answered ones whose acknowledgement failed, and
      all from the first one whose answer could not be sent. */
  function Unacknowledged(held: seq<Item>, ds: seq<Incoming>, ks: seq<Work>): seq<Item>
    requires |ks| == |ds| == |held|
  {
    if held == [] || !ks[0].sendSucceeds then held
    else
      Kept(held[0], ds[0].tag, ks[0]) + Unacknowledged(held[1..], ds[1..], ks[1..])
  }

  lemma TraceCons(w: World, s: State, step: Step, rest: seq<Step>)
    requires Enabled(w, s, step) && Valid(w, Apply(w, s, step), rest)
    ensures Valid(w, s, [step] + rest)
    ensures Trace(w, s, [step] + rest) == Shown(w, s, step) + Trace(w, Apply(w, s, step), rest)
  {
    assert ([step] + rest)[1..] == rest;
  }

  lemma TraceTwo(w: World, s: State, a: Step, b: Step, rest: seq<Step>)
    requires Enabled(w, s, a) && Enabled(w, Apply(w, s, a), b) && Valid(w, Apply(w, Apply(w, s, a), b), rest)
    requires Valid(w, s, [a] + ([b] + rest))
    ensures Trace(w, s, [a] + ([b] + rest)) ==
            Shown(w, s, a) + (Shown(w, Apply(w, s, a), b) + Trace(w, Apply(w, Apply(w, s, a), b), rest))
  {
    TraceCons(w, Apply(w, s, a), b, rest);
    TraceCons(w, s, a, [b] + rest);
  }

  lemma RunTwo(w: World, s: State, a: Step, b: Step, rest: seq<Step>)
    requires Enabled(w, s, a) && Enabled(w, Apply(w, s, a), b) && Valid(w, Apply(w, Apply(w, s, a), b), rest)
    ensures Valid(w, s, [a] + ([b] + rest))
    ensures Run(w, s, [a] + ([b] + rest)) == Run(w, Apply(w, Apply(w, s, a), b), rest)
  {
    RunCons(w, Apply(w, s, a), b, rest);
    RunCons(w, s, a, [b] + rest);
  }

  lemma AnswerInHand(w: World, s: State, n: nat, ds: seq<Incoming>, ks: seq<Work>)
    requires ds != [] && |ks| == |ds| && AllRunnable(w, ds, ks) && InHand(s, n, ds)
    ensures var step := OcrAnswer(n, ks[0].run);
            && Enabled(w, s, step)
            && Shown(w, s, step) == [Respond(ds[0].replyTo, ds[0].corr, ResultFor(w, ds[0], ks[0]))]
            && Apply(w, s, step).net == s.net[n := s.net[n].(place := OcrHand(ds[0].tag, true))]
            && InHand(Apply(w, s, step), n + 1, ds[1..])
  {
    assert Runnable(w, ds[0], ks[0]);
    assert s.net[n + 0].place == OcrHand(ds[0].tag, false) && Carries(ds[0], s.net[n + 0].msg);
    forall i | 0 <= i < |ds[1..]|
      ensures s.net[n + 1 + i].place == OcrHand(ds[1..][i].tag, false) && Carries(ds[1..][i], s.net[n + 1 + i].msg)
    {
      assert s.net[n + (i + 1)].place == OcrHand(ds[i + 1].tag, false);
    }
  }

  lemma AckInHand(w: World, s: State, n: nat, tag: nat, ds: seq<Incoming>)
    requires n < |s.net| && s.net[n].place == OcrHand(tag, true) && InHand(s, n + 1, ds)
    ensures var step := OcrAck(n);
            && Enabled(w, s, step) && Shown(w, s, step) == [Ack(tag)]
            && Apply(w, s, step).net == s.net[..n] + s.net[n + 1..]
            && InHand(Apply(w, s, step), n, ds)
  {
    var net := Apply(w, s, OcrAck(n)).net;
    forall i | 0 <= i < |ds|
      ensures net[n + i].place == OcrHand(ds[i].tag, false) && Carries(ds[i], net[n + i].msg)
    {
      assert net[n + i] == s.net[n + 1 + i];
    }
  }

  /** The state after one delivery that could be answered. */
  function AfterDelivery(w: World, s: State, n: nat, k: Work): State
    requires Enabled(w, s, OcrAnswer(n, k.run))
    requires k.ackSucceeds ==> Enabled(w, Apply(w, s, OcrAnswer(n, k.run)), OcrAck(n))
  {
    var s1 := Apply(w, s, OcrAnswer(n, k.run));
    if k.ackSucceeds then Apply(w, s1, OcrAck(n)) else s1
  }

  function DeliveryShown(w: World, s: State, n: nat, k: Work): seq<Effect>
    requires Enabled(w, s, OcrAnswer(n, k.run))
    requires k.ackSucceeds ==> Enabled(w, Apply(w, s, OcrAnswer(n, k.run)), OcrAck(n))
  {
    Shown(w, s, OcrAnswer(n, k.run))
    + if k.ackSucceeds then Shown(w, Apply(w, s, OcrAnswer(n, k.run)), OcrAck(n)) else []
  }

  lemma DeliveryKeepsHand(w: World, s: State, n: nat, ds: seq<Incoming>, ks: seq<Work>)
    requires ds != [] && |ks| == |ds| && AllRunnable(w, ds, ks) && InHand(s, n, ds)
    ensures Enabled(w, s, OcrAnswer(n, ks[0].run))
    ensures ks[0].ackSucceeds ==> Enabled(w, Apply(w, s, OcrAnswer(n, ks[0].run)), OcrAck(n))
    ensures InHand(AfterDelivery(w, s, n, ks[0]), NextInHand(n, ks[0]), ds[1..])
    ensures Runnable(w, ds[0], ks[0])
    ensures DeliveryShown(w, s, n, ks[0]) == DeliveryEffects(w, ds[0], ks[0])
    ensures AfterDelivery(w, s, n, ks[0]).net
            == s.net[..n] + Kept(s.net[n], ds[0].tag, ks[0]) + s.net[n + 1..]
  {
    AnswerInHand(w, s, n, ds, ks);
    if ks[0].ackSucceeds { AckInHand(w, Apply(w, s, OcrAnswer(n, ks[0].run)), n, ds[0].tag, ds[1..]); }
  }

  lemma StepsFirst(n: nat, k: Work, rest: seq<Step>)
    ensures DeliverySteps(n, k) + rest
            == [OcrAnswer(n, k.run)] + (if k.ackSucceeds then [OcrAck(n)] + rest else rest)
  {
  }

  lemma DeliveryTrace(w: World, s: State, n: nat, k: Work, rest: seq<Step>)
    requires Enabled(w, s, OcrAnswer(n, k.run))
    requires k.ackSucceeds ==> Enabled(w, Apply(w, s, OcrAnswer(n, k.run)), OcrAck(n))
    requires Valid(w, AfterDelivery(w, s, n, k), rest)
    requires Valid(w, s, DeliverySteps(n, k) + rest)
    ensures Trace(w, s, DeliverySteps(n, k) + rest)
            == DeliveryShown(w, s, n, k) + Trace(w, AfterDelivery(w, s, n, k), rest)
  {
    StepsFirst(n, k, rest);
    if k.ackSucceeds {
      TraceTwo(w, s, OcrAnswer(n, k.run), OcrAck(n), rest);
    } else {
      TraceCons(w, s, OcrAnswer(n, k.run), rest);
    }
  }

  lemma DeliveryRun(w: World, s: State, n: nat, k: Work, rest: seq<Step>)
    requires Enabled(w, s, OcrAnswer(n, k.run))
    requires k.ackSucceeds ==> Enabled(w, Apply(w, s, OcrAnswer(n, k.run)), OcrAck(n))
    requires Valid(w, AfterDelivery(w, s, n, k), rest)
    ensures Valid(w, s, DeliverySteps(n, k) + rest)
    ensures Run(w, s, DeliverySteps(n, k) + rest) == Run(w, AfterDelivery(w, s, n, k), rest)
  {
    StepsFirst(n, k, rest);
    if k.ackSucceeds {
      RunTwo(w, s, OcrAnswer(n, k.run), OcrAck(n), rest);
    } else {
      RunCons(w, s, OcrAnswer(n, k.run), rest);
    }
  }

  /** The messages after the loop over those from `n` on. */
  function AfterLoop(net: seq<Item>, n: nat, ds: seq<Incoming>, ks: seq<Work>): seq<Item>
    requires |ks| == |ds| && n + |ds| <= |net|
  {
    net[..n] + Unacknowledged(net[n..n + |ds|], ds, ks) + net[n + |ds|..]
  }

  lemma AfterFirst(net: seq<Item>, later: seq<Item>, n: nat, ds: seq<Incoming>, ks: seq<Work>)
    requires ds != [] && |ks| == |ds| && n + |ds| <= |net| && ks[0].sendSucceeds
    requires later == net[..n] + Kept(net[n], ds[0].tag, ks[0]) + net[n + 1..]
    ensures NextInHand(n, ks[0]) + |ds| - 1 <= |later|
    ensures AfterLoop(net, n, ds, ks) == AfterLoop(later, NextInHand(n, ks[0]), ds[1..], ks[1..])
  {
    var m, kept := n + |ds|, Kept(net[n], ds[0].tag, ks[0]);
    Slices(net, later, n, m, kept);
    assert net[n..m][1..] == net[n + 1..m] && net[n..m][0] == net[n];
    assert AfterLoop(net, n, ds, ks)
        == net[..n] + (kept + Unacknowledged(net[n + 1..m], ds[1..], ks[1..])) + net[m..];
  }

  lemma Slices(net: seq<Item>, later: seq<Item>, n: nat, m: nat, kept: seq<Item>)
    requires n < m <= |net| && later == net[..n] + kept + net[n + 1..]
    ensures m + |kept| - 1 <= |later|
    ensures later[..n + |kept|] == net[..n] + kept
    ensures later[n + |kept|..m + |kept| - 1] == net[n + 1..m]
    ensures later[m + |kept| - 1..] == net[m..]
  {
  }

  /** The loop of the OCR worker is a run of the protocol: its log is the trace of that run, and
      exactly the messages it did not acknowledge are left for the broker to deliver again. */
  lemma {:induction false} WorkerLoopIsRun(w: World, s: State, n: nat, ds: seq<Incoming>, ks: seq<Work>)
    requires |ks| == |ds| && AllRunnable(w, ds, ks) && InHand(s, n, ds)
    ensures Valid(w, s, LoopSteps(n, ds, ks))
    ensures Trace(w, s, LoopSteps(n, ds, ks)) == Effects(w, ds, ks)
    ensures Run(w, s, LoopSteps(n, ds, ks)).net == AfterLoop(s.net, n, ds, ks)
    decreases |ds|
  {
    if ds != [] && ks[0].sendSucceeds {
      DeliveryKeepsHand(w, s, n, ds, ks);
      var later, n' := AfterDelivery(w, s, n, ks[0]), NextInHand(n, ks[0]);
      WorkerLoopIsRun(w, later, n', ds[1..], ks[1..]);
      DeliveryRun(w, s, n, ks[0], LoopSteps(n', ds[1..], ks[1..]));
      DeliveryTrace(w, s, n, ks[0], LoopSteps(n', ds[1..], ks[1..]));
      AfterFirst(s.net, later.net, n, ds, ks);
    }
  }
}
