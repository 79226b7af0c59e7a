/** The distributed preprocessing pipeline, message by message, against a fold. */
module Pipeline {
  import opened OcrTypes
  import opened OcrRequests

  /** Where a message ends up when nothing fails: at an OCR worker, or under a key that no
      worker's queue is bound to. */
  datatype Outcome = Decoded(input: Request) | Unroutable(key: string)

  /** One successful preprocessor delivery: the chain is popped and the image overwritten. */
  function Hop(w: World, name: string, r: Request): Request {
    Preprocessed(w, name, r.(chain := Popped(r.chain)))
  }

  /** The fate of a message published under `key`. */
  function Fate(w: World, key: string, r: Request): Outcome
    decreases |r.chain|, if key == w.ocrKey then 0 else 1
  {
    if key == w.ocrKey then Decoded(r)
    else if key in w.preKeys then Fate(w, NextKey(w, r.chain), Hop(w, key, r))
    else Unroutable(key)
  }

  /** The client pops the first key and publishes. */
  function Published(w: World, r: Request): Outcome {
    Fate(w, NextKey(w, r.chain), r.(chain := Popped(r.chain)))
  }

  /** p1(p2(...pn(img))) for the chain [p1, ..., pn]. */
  function Fold(w: World, s: Settings, chain: seq<string>, img: Bytes): Bytes {
    if chain == [] then img
    else Transform(w, chain[0], s, Fold(w, s, chain[1..], img))
  }

  predicate AllBound(w: World, chain: seq<string>) {
    forall k :: 0 <= k < |chain| ==> chain[k] in w.preKeys
  }

  lemma {:induction false} FoldLast(w: World, s: Settings, chain: seq<string>, img: Bytes)
    requires chain != []
    ensures Fold(w, s, chain, img) == Fold(w, s, Popped(chain), Transform(w, NextKey(w, chain), s, img))
  {
    if |chain| > 1 {
      FoldLast(w, s, chain[1..], img);
      assert Popped(chain)[1..] == Popped(chain[1..]);
    }
  }

  /** The message after `k` hops. */
  function AfterHops(w: World, r: Request, k: nat): Request
    requires k <= |r.chain|
  {
    r.(chain := r.chain[..|r.chain| - k],
       imgBytes := Some(Fold(w, r.settings, r.chain[|r.chain| - k..], BytesOf(r.imgBytes))))
  }

  /** Key and body of the k-th publication: the key has been popped from the body's chain. */
  function WireKey(w: World, r: Request, k: nat): string
    requires k <= |r.chain|
  {
    if k == |r.chain| then w.ocrKey else r.chain[|r.chain| - k - 1]
  }

  function WireBody(w: World, r: Request, k: nat): Request
    requires k <= |r.chain|
  {
    AfterHops(w, r, k).(chain := if k == |r.chain| then [] else r.chain[..|r.chain| - k - 1])
  }

  /** A worker turns the k-th publication into the next one: the chain it sends on is the
      untouched prefix and the bytes are the fold of exactly the names consumed so far. */
  lemma HopAdvances(w: World, r: Request, k: nat)
    requires k < |r.chain| && r.imgBytes.Some?
    ensures NextKey(w, WireBody(w, r, k).chain) == WireKey(w, r, k + 1)
    ensures Hop(w, WireKey(w, r, k), WireBody(w, r, k)) == WireBody(w, r, k + 1)
  {
    var n := |r.chain|;
    assert r.chain[n - k - 1..][1..] == r.chain[n - k..];
    if k + 1 < n {
      assert r.chain[..n - k - 1][..n - k - 2] == r.chain[..n - k - 2];
    }
    assert r.chain[n - k - 1..][0] == WireKey(w, r, k);
    assert WireKey(w, r, k) == IDENTITY ==>
        BytesOf(WireBody(w, r, k).imgBytes) == Fold(w, r.settings, r.chain[n - k - 1..], r.imgBytes.value);
  }

  /** `body` under `key` is the k-th publication of `r`: k names, all of them bound, have been
      applied, the next one is the key and the rest of the chain is untouched. */
  predicate OnWire(w: World, r: Request, key: string, body: Request, k: nat) {
    && k <= |r.chain|
    && (forall i :: |r.chain| - k <= i < |r.chain| ==> r.chain[i] in w.preKeys)
    && key == WireKey(w, r, k)
    && body == WireBody(w, r, k)
  }

  ghost predicate SomePublication(w: World, r: Request, key: string, body: Request) {
    exists k :: OnWire(w, r, key, body, k)
  }

  /** In terms of the chain and the fold: what is left of the chain, the key and the image. */
  predicate FoldedAway(w: World, r: Request, key: string, body: Request, k: nat) {
    var left := |r.chain| - k;
    && left >= 0 && AllBound(w, r.chain[left..])
    && key == (if left == 0 then w.ocrKey else r.chain[left - 1])
    && body == r.(chain := if left == 0 then [] else r.chain[..left - 1],
                  imgBytes := Some(Fold(w, r.settings, r.chain[left..], BytesOf(r.imgBytes))))
  }

  lemma OnWireMeaning(w: World, r: Request, key: string, body: Request, k: nat)
    ensures OnWire(w, r, key, body, k) <==> FoldedAway(w, r, key, body, k)
  {
    if k <= |r.chain| {
      var left := |r.chain| - k;
      assert forall i :: 0 <= i < k ==> r.chain[left..][i] == r.chain[left + i];
      assert forall i :: left <= i < |r.chain| ==> r.chain[i] == r.chain[left..][i - left];
    }
  }

  /** `body` holds the image that `r` asks for, folded over the last `k` names. */
  predicate FoldsAsked(w: World, r: Request, body: Request, k: nat) {
    && AskedImage(w, r).Some? && k <= |r.chain|
    && body.imgBytes == Some(Fold(w, r.settings, r.chain[|r.chain| - k..], AskedImage(w, r).value))
  }

  lemma WireFoldsAsked(w: World, r: Request, key: string, body: Request, k: nat)
    requires Normalised(w, r).Some? && FoldedAway(w, Normalised(w, r).value, key, body, k)
    ensures FoldsAsked(w, r, body, k)
  {
    NormalisedTakes(w, r);
  }

  lemma FirstOnWire(w: World, r: Request)
    requires r.imgBytes.Some?
    ensures OnWire(w, r, NextKey(w, r.chain), r.(chain := Popped(r.chain)), 0)
  {
    assert r.chain[|r.chain|..] == [];
  }

  lemma HopOnWire(w: World, r: Request, key: string, body: Request, k: nat)
    requires DistinctQueues(w) && r.imgBytes.Some? && OnWire(w, r, key, body, k) && key in w.preKeys
    ensures OnWire(w, r, NextKey(w, body.chain), Hop(w, key, body), k + 1)
  {
    HopAdvances(w, r, k);
  }

  /** The fate of every publication is the fate of the first. */
  lemma {:induction false} WireFate(w: World, r: Request, k: nat)
    requires DistinctQueues(w) && r.imgBytes.Some?
    requires k <= |r.chain| && OnWire(w, r, WireKey(w, r, k), WireBody(w, r, k), k)
    ensures Fate(w, WireKey(w, r, k), WireBody(w, r, k)) == Published(w, r)
  {
    if k == 0 {
      FirstOnWire(w, r);
    } else {
      HopAdvances(w, r, k - 1);
      WireFate(w, r, k - 1);
    }
  }

  /** How many names, from the end of the chain, are bound preprocessor queues. */
  function Applied(w: World, chain: seq<string>): (k: nat)
    ensures k <= |chain|
    ensures forall i :: |chain| - k <= i < |chain| ==> chain[i] in w.preKeys
    ensures k < |chain| ==> chain[|chain| - k - 1] !in w.preKeys
  {
    if chain == [] || NextKey(w, chain) !in w.preKeys then 0 else 1 + Applied(w, Popped(chain))
  }

  /** The trailing bound names are applied, last name first. If that is the whole chain, the
      OCR worker gets the whole fold with an empty chain. Otherwise the first unbound name from
      the end decides: the OCR queue's own name delivers the partly preprocessed image with the
      rest of the chain unused, any other name takes the message out of the pipeline. */
  function Predicted(w: World, r: Request): Outcome {
    var k, n := Applied(w, r.chain), |r.chain|;
    if k == n then Decoded(AfterHops(w, r, n))
    else if r.chain[n - k - 1] == w.ocrKey then Decoded(AfterHops(w, r, k).(chain := r.chain[..n - k - 1]))
    else Unroutable(r.chain[n - k - 1])
  }

  lemma PredictedUnroutable(w: World, r: Request, key: string)
    requires key != w.ocrKey
    ensures var k, n := Applied(w, r.chain), |r.chain|;
            Predicted(w, r) == Unroutable(key) <==> k < n && r.chain[n - k - 1] == key
  {
  }

  lemma HopShifts(w: World, r: Request, k: nat)
    requires 1 <= k <= |r.chain| && r.imgBytes.Some?
    ensures AfterHops(w, Hop(w, NextKey(w, r.chain), r), k - 1) == AfterHops(w, r, k)
  {
    var n := |r.chain|;
    var next := Hop(w, NextKey(w, r.chain), r);
    assert next.chain == r.chain[..n - 1];
    assert next.chain[..n - k] == r.chain[..n - k];
    HopFolds(w, r, k);
  }

  lemma HopFolds(w: World, r: Request, k: nat)
    requires 1 <= k <= |r.chain| && r.imgBytes.Some?
    ensures var next, left := Hop(w, NextKey(w, r.chain), r), |r.chain| - k;
            && |next.chain| == |r.chain| - 1
            && Fold(w, r.settings, next.chain[left..], BytesOf(next.imgBytes))
               == Fold(w, r.settings, r.chain[left..], r.imgBytes.value)
  {
    var next := Hop(w, NextKey(w, r.chain), r);
    var tail := r.chain[|r.chain| - k..];
    FoldLast(w, r.settings, tail, r.imgBytes.value);
    assert Popped(tail) == next.chain[|r.chain| - k..];
    assert BytesOf(next.imgBytes) == Transform(w, NextKey(w, r.chain), r.settings, r.imgBytes.value);
  }

  lemma HopKeepsPrediction(w: World, r: Request)
    requires r.chain != [] && NextKey(w, r.chain) in w.preKeys && r.imgBytes.Some?
    ensures Predicted(w, Hop(w, NextKey(w, r.chain), r)) == Predicted(w, r)
  {
    var n, k := |r.chain|, Applied(w, r.chain);
    var next := Hop(w, NextKey(w, r.chain), r);
    HopApplied(w, r);
    HopShifts(w, r, k);
    if k < n {
      assert next.chain[..n - k - 1] == r.chain[..n - k - 1];
      SamePrediction(w, r, next);
    }
  }

  lemma SamePrediction(w: World, r: Request, next: Request)
    requires var n, k := |r.chain|, Applied(w, r.chain);
             && 1 <= k < n && |next.chain| == n - 1 && Applied(w, next.chain) == k - 1
             && next.chain[..n - k - 1] == r.chain[..n - k - 1] && next.chain[n - k - 1] == r.chain[n - k - 1]
             && AfterHops(w, next, k - 1) == AfterHops(w, r, k)
    ensures Predicted(w, next) == Predicted(w, r)
  {
  }

  lemma HopApplied(w: World, r: Request)
    requires r.chain != [] && NextKey(w, r.chain) in w.preKeys
    ensures var next := Hop(w, NextKey(w, r.chain), r);
            next.chain == Popped(r.chain) && Applied(w, next.chain) == Applied(w, r.chain) - 1
  {
  }

  /** The fate of every request that reaches the broker. */
  lemma {:induction false} PipelineIsFold(w: World, r: Request)
    requires DistinctQueues(w) && r.imgBytes.Some?
    ensures Published(w, r) == Predicted(w, r)
    decreases |r.chain|
  {
    if r.chain == [] {
      assert r == AfterHops(w, r, 0);
    } else {
      var name, n := NextKey(w, r.chain), |r.chain|;
      if name in w.preKeys {
        HopKeepsPrediction(w, r);
        PipelineIsFold(w, Hop(w, name, r));
        HopPublishes(w, r);
      } else {
        assert r.chain[n..] == [];
      }
    }
  }

  lemma HopPublishes(w: World, r: Request)
    requires DistinctQueues(w) && r.chain != [] && NextKey(w, r.chain) in w.preKeys
    ensures Published(w, r) == Published(w, Hop(w, NextKey(w, r.chain), r))
  {
    var name := NextKey(w, r.chain);
    var rest := r.(chain := Popped(r.chain));
    assert Hop(w, name, rest) == Hop(w, name, r).(chain := Popped(rest.chain));
  }

  /** The whole chain is applied exactly when all its names are bound queues. */
  lemma WholeChainIffBound(w: World, r: Request)
    requires DistinctQueues(w) && r.imgBytes.Some?
    ensures Applied(w, r.chain) == |r.chain| <==> AllBound(w, r.chain)
    ensures AllBound(w, r.chain) ==>
              Published(w, r) ==
              Decoded(r.(chain := [], imgBytes := Some(Fold(w, r.settings, r.chain, r.imgBytes.value))))
  {
    PipelineIsFold(w, r);
    assert r.chain[0..] == r.chain;
  }

  // ----- which image the engine reads -----

  /** The engines prefer base64 text, then a URL, then the bytes. */
  function EngineImage(w: World, r: Request): Option<Bytes> {
    if r.imgBase64 != "" then w.base64(r.imgBase64)
    else if r.imgUrl != "" then Some(w.download(r.imgUrl))
    else Some(BytesOf(r.imgBytes))
  }

  /** The caller named one image source only, counting bytes before text before URL. */
  predicate OneSource(r: Request) {
    if r.imgBytes.Some? then r.imgBase64 == "" && r.imgUrl == ""
    else r.imgBase64 != "" ==> r.imgUrl == ""
  }

  predicate NamesSource(r: Request) { r.imgBytes.Some? || r.imgBase64 != "" || r.imgUrl != "" }

  /** Of a request with exactly one image source, normalising does not change what an engine reads,
      and that is the image asked for. */
  lemma NormalisingKeepsImage(w: World, r: Request)
    requires OneSource(r) && NamesSource(r)
    ensures EngineImage(w, r) == AskedImage(w, r)
    ensures var n := Normalised(w, r); EngineImage(w, r) == if n.Some? then EngineImage(w, n.value) else None
  {
  }

  /** In the world `v` the engine reads the preprocessed image that was asked for. */
  predicate EngineReadsFold(v: World, r: Request) {
    var n := Normalised(v, r);
    n.Some? ==>
      && AskedImage(v, r).Some?
      && Published(v, n.value).Decoded?
      && EngineImage(v, Published(v, n.value).input) == Some(Fold(v, r.settings, r.chain, AskedImage(v, r).value))
  }

  predicate SameQueues(w: World, v: World) {
    w.ocrKey == v.ocrKey && w.preKeys == v.preKeys
  }

  /** A world whose tools copy their input, while text and URL stand for given images. */
  function CopyingWorld(w: World, text: Bytes, page: Bytes): World {
    w.(transform := (n, s, b) => b, base64 := t => Some(text), download := u => page)
  }

  lemma {:induction false} CopyingFold(w: World, s: Settings, chain: seq<string>, img: Bytes, text: Bytes, page: Bytes)
    ensures Fold(CopyingWorld(w, text, page), s, chain, img) == img
  {
    if chain != [] {
      CopyingFold(w, s, chain[1..], img, text, page);
    }
  }

  lemma OneSourceReadsFold(v: World, r: Request)
    requires DistinctQueues(v) && AllBound(v, r.chain) && OneSource(r)
    ensures EngineReadsFold(v, r)
  {
    if Normalised(v, r).Some? {
      var n := Normalised(v, r).value;
      assert n.chain == r.chain && n.settings == r.settings && n.imgBytes.Some?;
      assert n.imgBase64 == "" && n.imgUrl == "";
      WholeChainIffBound(v, n);
      assert Published(v, n).Decoded?;
    }
  }

  /** For a bound chain, the engine reads the fold in every world if and only if the caller
      named one image source: otherwise `v`, with the same queues, is a world where it does not. */
  lemma EngineReadsFoldIffOneSource(w: World, r: Request) returns (v: World)
    requires DistinctQueues(w) && AllBound(w, r.chain)
    ensures SameQueues(w, v)
    ensures OneSource(r) ==> EngineReadsFold(w, r)
    ensures !OneSource(r) ==> !EngineReadsFold(v, r)
  {
    v := w;
    if OneSource(r) {
      OneSourceReadsFold(w, r);
    } else {
      var b := BytesOf(r.imgBytes);
      v := if r.imgBytes.Some? then CopyingWorld(w, b + [0], b + [0]) else CopyingWorld(w, [1], [2]);
      var n := Normalised(v, r).value;
      WholeChainIffBound(v, n);
      CopyingFold(w, r.settings, r.chain, n.imgBytes.value, v.base64("").value, v.download(""));
      assert b != b + [0];
    }
  }
}
