/** Values shared by the modules: images, JSON values, OCR requests and results, and the
    outside world (download, base64 decoder, preprocessors, engine) as functions. */
module OcrTypes {

  newtype byte = x: int | 0 <= x < 256
  type Bytes = seq<byte>

  datatype Option<+T> = None | Some(value: T)

  /** The dynamic values found in `engine_args` and `preprocessor-args`. */
  datatype Json = Null | Str(s: string) | Bool(b: bool) | Num(n: int) | Arr(a: seq<Json>) | Obj(m: map<string, Json>)

  /** The engines for which the source has an implementation. */
  datatype EngineType = Tesseract | SandwichTesseract | Mock

  /** The fields of a request that no step on its way to the engine changes. */
  datatype Settings = Settings(
    requestID: string,
    engine: EngineType,
    engineArgs: map<string, Json>,
    preprocessorArgs: map<string, Json>,
    docType: string,
    pageNumber: nat,
    userAgent: string,
    referenceID: string)

  /** An OCR request as it is marshalled to JSON; `None` image bytes are Go's nil slice. */
  datatype Request = Request(
    imgUrl: string,
    imgBase64: string,
    imgBytes: Option<Bytes>,
    chain: seq<string>,
    deferred: bool,
    replyTo: string,
    timeOut: nat,
    settings: Settings)

  datatype OcrResult = OcrResult(text: string, status: string, id: string)

  /** The configuration and the outside world. `preKeys` are the names of the queues that a
      preprocessor worker has bound, `ocrKey` is the queue of the OCR workers. */
  datatype World = World(
    ocrKey: string,
    preKeys: set<string>,
    capacity: nat,                                // FactorForMessageAccept
    numRetries: nat,
    defaultTimeout: nat,                          // ResponseCacheTimeout
    maxTimeout: nat,                              // MaximalResponseCacheTimeout
    replyUrl: string -> Option<string>,           // URL check of the reply-to address
    download: string -> Bytes,
    base64: string -> Option<Bytes>,
    transform: (string, Settings, Bytes) -> Bytes,
    engine: (Settings, nat, Bytes) -> OcrResult)

  const IDENTITY := "identity"

  /** The zero value: what a body without the three keys unmarshals to. */
  const NO_RESULT := OcrResult("", "", "")

  function BytesOf(b: Option<Bytes>): Bytes {
    if b.Some? then b.value else []
  }

  /** Channel capacity is positive (a zero flag keeps the default 2) and the OCR queue is no
      preprocessor's queue (the worker constructor accepts three fixed names only). */
  predicate WellConfigured(w: World) {
    w.capacity >= 1 && DistinctQueues(w)
  }

  predicate DistinctQueues(w: World) {
    w.ocrKey !in w.preKeys
  }
}
