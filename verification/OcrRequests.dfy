/** `OcrRequest` and its methods that overwrite fields in place. */
module OcrRequests {
  import opened OcrTypes

  // ----- specification functions -----

  function NextKey(w: World, chain: seq<string>): string {
    if chain == [] then w.ocrKey else chain[|chain| - 1]
  }

  function Popped(chain: seq<string>): seq<string> {
    if chain == [] then [] else chain[..|chain| - 1]
  }

  /** The client's image normalisation: `None` is an undecodable base64 text. */
  function Normalised(w: World, r: Request): Option<Request> {
    if r.imgBytes.Some? then Some(r)
    else if r.imgBase64 != "" then
      var d := w.base64(r.imgBase64);
      if d.None? then None else Some(r.(imgBytes := d, imgBase64 := ""))
    else Some(r.(imgBytes := Some(w.download(r.imgUrl)), imgUrl := ""))
  }

  /** The image a request asks for: its bytes, or else its text decoded, or else the page at its URL. */
  function AskedImage(w: World, r: Request): Option<Bytes> {
    if r.imgBytes.Some? then r.imgBytes
    else if r.imgBase64 != "" then w.base64(r.imgBase64)
    else Some(w.download(r.imgUrl))
  }

  /** Normalising takes that image and clears the source it took; nothing else changes. */
  lemma NormalisedTakes(w: World, r: Request)
    ensures Normalised(w, r).Some? <==> AskedImage(w, r).Some?
    ensures var n := Normalised(w, r);
            n.Some? ==>
              && n.value.imgBytes == AskedImage(w, r)
              && n.value == r.(imgBytes := n.value.imgBytes, imgBase64 := n.value.imgBase64, imgUrl := n.value.imgUrl)
              && (n.value.imgBase64 == "" || (r.imgBytes.Some? && n.value.imgBase64 == r.imgBase64))
              && (n.value.imgUrl == r.imgUrl || (r.imgBytes.None? && r.imgBase64 == "" && n.value.imgUrl == ""))
  {
  }

  /** What one preprocessor makes of the image bytes; `identity` leaves them alone. */
  function Transform(w: World, name: string, s: Settings, b: Bytes): Bytes {
    if name == IDENTITY then b else w.transform(name, s, b)
  }

  function Preprocessed(w: World, name: string, r: Request): Request {
    if name == IDENTITY then r
    else r.(imgBytes := Some(w.transform(name, r.settings, BytesOf(r.imgBytes))))
  }

  /** Zero and too large timeouts fall back to the default. */
  function Clamped(w: World, timeOut: nat): nat {
    if timeOut >= w.maxTimeout || timeOut == 0 then w.defaultTimeout else timeOut
  }

  /** The maximum bounds every accepted timeout if and only if it bounds the default, which is
      what the start-up check of the two flags ensures. */
  lemma ClampBoundedIff(w: World)
    ensures (forall t: nat :: Clamped(w, t) <= w.maxTimeout) <==> w.defaultTimeout <= w.maxTimeout
  {
    assert Clamped(w, 0) == w.defaultTimeout;
  }

  /** A timeout is kept exactly if it is positive and below the maximum, or the default anyway. */
  lemma ClampKeepsIff(w: World, timeOut: nat)
    ensures Clamped(w, timeOut) == timeOut <==> 0 < timeOut < w.maxTimeout || timeOut == w.defaultTimeout
    ensures Clamped(w, timeOut) in {timeOut, w.defaultTimeout}
  {
  }

  /** The request as the client accepts it: a reply-to address is checked and forces the
      deferred mode, and the timeout is clamped. `None` is a rejected address. */
  function Prepared(w: World, r: Request): Option<Request> {
    if r.replyTo == "" then Some(r.(timeOut := Clamped(w, r.timeOut)))
    else
      var u := w.replyUrl(r.replyTo);
      if u.None? then None else Some(r.(replyTo := u.value, deferred := true, timeOut := Clamped(w, r.timeOut)))
  }

  // ----- the mutable request -----

  class OcrRequest {
    var imgUrl: string
    var imgBase64: string
    var imgBytes: Option<Bytes>
    var preprocessorChain: seq<string>
    var deferred: bool
    var replyTo: string
    var timeOut: nat
    var settings: Settings

    function Value(): Request
      reads this
    {
      Request(imgUrl, imgBase64, imgBytes, preprocessorChain, deferred, replyTo, timeOut, settings)
    }

    /** Unmarshalling a message body. */
    constructor (r: Request)
      ensures Value() == r
    {
      imgUrl, imgBase64, imgBytes := r.imgUrl, r.imgBase64, r.imgBytes;
      preprocessorChain, deferred, replyTo := r.chain, r.deferred, r.replyTo;
      timeOut, settings := r.timeOut, r.settings;
    }

    method NextPreprocessor(w: World) returns (key: string)
      modifies this`preprocessorChain
      ensures key == NextKey(w, old(preprocessorChain))
      ensures preprocessorChain == Popped(old(preprocessorChain))
      ensures old(preprocessorChain) == [] ==> key == w.ocrKey && preprocessorChain == []
      ensures old(preprocessorChain) != [] ==> preprocessorChain + [key] == old(preprocessorChain)
    {
      if |preprocessorChain| == 0 {
        return w.ocrKey;
      }
      var s := preprocessorChain;
      key, s := s[|s| - 1], s[..|s| - 1];
      preprocessorChain := s;
    }

    method DecodeBase64(w: World) returns (ok: bool)
      modifies this`imgBytes, this`imgBase64
      ensures ok == w.base64(old(imgBase64)).Some?
      ensures ok ==> imgBytes == w.base64(old(imgBase64)) && imgBase64 == ""
      ensures !ok ==> Value() == old(Value())
    {
      var bytes := w.base64(imgBase64);
      if bytes.None? {
        return false;
      }
      imgBytes := bytes;
      imgBase64 := "";
      ok := true;
    }

    /** `reachable` is the outcome of the HTTP download. */
    method DownloadImgUrl(w: World, reachable: bool) returns (ok: bool)
      modifies this`imgBytes, this`imgUrl
      ensures ok == reachable
      ensures ok ==> imgBytes == Some(w.download(old(imgUrl))) && imgUrl == ""
      ensures !ok ==> Value() == old(Value())
    {
      if !reachable {
        return false;
      }
      imgBytes := Some(w.download(imgUrl));
      imgUrl := "";
      ok := true;
    }

    /** A preprocessor writes its output over the image bytes; `succeeds` is the tool's outcome. */
    method Preprocess(w: World, name: string, succeeds: bool) returns (ok: bool)
      modifies this`imgBytes
      ensures ok == (name == IDENTITY || succeeds)
      ensures Value() == if ok then Preprocessed(w, name, old(Value())) else old(Value())
      ensures ok ==> imgBytes == if name == "identity" then old(imgBytes)
                                 else Some(w.transform(name, settings, BytesOf(old(imgBytes))))
    {
      if name == IDENTITY {
        return true;
      }
      if !succeeds {
        return false;
      }
      imgBytes := Some(w.transform(name, settings, BytesOf(imgBytes)));
      ok := true;
    }
  }
}
